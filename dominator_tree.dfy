/**
 * Retained sizes through a dominator tree: vertices `0..N-1` of a graph
 * (vertex 0 the root), a depth-first numbering, the Lengauer–Tarjan
 * semi-dominator pass with path compression, and the accumulation of
 * sizes from the leaves of the dominator tree upwards.
 */
module DominatorTree {
  import Counting
  import opened DominatorForest

  /** Every edge names a vertex of the graph. */
  predicate IsGraph(graph: seq<seq<int>>) {
    forall v, j :: 0 <= v < |graph| && 0 <= j < |graph[v]| ==> 0 <= graph[v][j] < |graph|
  }

  /** The vertices `0..n-1`. */
  function Range(n: nat): (r: set<int>)
    ensures |r| == n && forall x :: x in r <==> 0 <= x < n
  {
    if n == 0 then {} else
      var r := Range(n - 1) + {n - 1};
      assert n - 1 !in Range(n - 1);
      r
  }

  /** One step of a breadth-first search: `s` and the successors of its vertices. */
  function Step(graph: seq<seq<int>>, s: set<int>): (r: set<int>)
    ensures s <= r
  {
    s + set v, j | 0 <= v < |graph| && v in s && 0 <= j < |graph[v]| :: graph[v][j]
  }

  /** The vertices reachable from 0 along at most `k` edges. */
  function ReachWithin(graph: seq<seq<int>>, k: nat): set<int> {
    if k == 0 then {0} else Step(graph, ReachWithin(graph, k - 1))
  }

  /** Every vertex is reachable from vertex 0 (a path never needs more than `N` edges). */
  predicate AllReachable(graph: seq<seq<int>>) {
    forall x :: 0 <= x < |graph| ==> x in ReachWithin(graph, |graph|)
  }

  /**
   * The depth-first numbering so far: the vertices of `vis` have the
   * numbers `0..n-1` in `semi`, `vertex` maps each number back to its
   * vertex, and every other vertex still has `semi` 0.
   */
  ghost predicate Numbered(N: nat, S: seq<int>, V: seq<int>, n: int, vis: set<int>) {
    && |S| == N && |V| == N && 0 <= n <= N && |vis| == n
    && (forall x :: x in vis ==> 0 <= x < N && 0 <= S[x] < n && V[S[x]] == x)
    && (forall k :: 0 <= k < n ==> V[k] in vis && S[V[k]] == k)
    && (forall x :: 0 <= x < N && x !in vis ==> S[x] == 0)
    && (n == 0 <==> vis == {}) && (n > 0 ==> 0 in vis && V[0] == 0 && S[0] == 0)
  }

  /** Every numbered vertex but 0 hangs, in `parent`, off an edge from a vertex numbered before it. */
  ghost predicate ParentsEarlier(graph: seq<seq<int>>, S: seq<int>, P: seq<int>, vis: set<int>)
    requires |S| == |P| == |graph|
  {
    forall x {:trigger P[x]} :: x in vis && x != 0 && 0 <= x < |graph| ==>
      0 <= P[x] < |graph| && P[x] in vis && S[P[x]] < S[x] && x in graph[P[x]]
  }

  /** Every entry `v` of `pred[w]` is a numbered vertex with an edge to `w`. */
  ghost predicate PredsSound(graph: seq<seq<int>>, Q: seq<seq<int>>, vis: set<int>)
    requires |Q| == |graph|
  {
    forall w, j :: 0 <= w < |graph| && 0 <= j < |Q[w]| ==> Q[w][j] in vis && 0 <= Q[w][j] < |graph| && w in graph[Q[w][j]]
  }

  ghost predicate DfsState(graph: seq<seq<int>>, S: seq<int>, P: seq<int>, V: seq<int>, Q: seq<seq<int>>, n: int, vis: set<int>) {
    && IsGraph(graph) && |P| == |Q| == |graph|
    && Numbered(|graph|, S, V, n, vis)
    && ParentsEarlier(graph, S, P, vis)
    && PredsSound(graph, Q, vis)
  }

  /** All successors of `x` are numbered and list `x` among their predecessors. */
  ghost predicate Finished(graph: seq<seq<int>>, Q: seq<seq<int>>, vis: set<int>, x: int)
    requires 0 <= x < |graph| && |Q| == |graph| && IsGraph(graph)
  {
    forall j :: 0 <= j < |graph[x]| ==> graph[x][j] in vis && x in Q[graph[x][j]]
  }

  /** `pred` lists only grow. */
  ghost predicate Grows(Q0: seq<seq<int>>, Q1: seq<seq<int>>) {
    |Q0| == |Q1| && forall w :: 0 <= w < |Q0| ==> Q0[w] <= Q1[w]
  }

  lemma FinishedGrows(graph: seq<seq<int>>, Q0: seq<seq<int>>, Q1: seq<seq<int>>, vis0: set<int>, vis1: set<int>, x: int)
    requires 0 <= x < |graph| && |Q0| == |graph| && IsGraph(graph)
    requires Finished(graph, Q0, vis0, x) && Grows(Q0, Q1) && vis0 <= vis1
    ensures Finished(graph, Q1, vis1, x)
  {
    forall j | 0 <= j < |graph[x]| ensures graph[x][j] in vis1 && x in Q1[graph[x][j]] {
      var w := graph[x][j];
      assert Q0[w] <= Q1[w];
    }
  }

  /** `v` is a predecessor, on record, of the first `j` successors in `es`. */
  ghost predicate EdgesRecorded(es: seq<int>, j: int, vis: set<int>, Q: seq<seq<int>>, v: int) {
    0 <= j <= |es| && forall k :: 0 <= k < j ==> es[k] in vis && 0 <= es[k] < |Q| && v in Q[es[k]]
  }

  lemma EdgesRecordedGrows(es: seq<int>, j: int, vis0: set<int>, vis1: set<int>, Q0: seq<seq<int>>, Q1: seq<seq<int>>, v: int)
    requires EdgesRecorded(es, j, vis0, Q0, v) && vis0 <= vis1 && Grows(Q0, Q1)
    ensures EdgesRecorded(es, j, vis1, Q1, v)
  {
    forall k | 0 <= k < j ensures es[k] in vis1 && v in Q1[es[k]] {
      assert Q0[es[k]] <= Q1[es[k]];
    }
  }

  /** Recording `v` as a predecessor of `es[j]`. */
  lemma RecordEdge(graph: seq<seq<int>>, es: seq<int>, j: int, vis: set<int>, Q: seq<seq<int>>, v: int, vis0: set<int>)
    requires EdgesRecorded(es, j, vis, Q, v) && j < |es| && es[j] in vis && 0 <= es[j] < |Q| == |graph| && IsGraph(graph)
    requires forall x :: x in vis && x !in vis0 && x != v ==> 0 <= x < |graph| && Finished(graph, Q, vis, x)
    requires 0 <= v < |graph| && es == graph[v] && v in vis && PredsSound(graph, Q, vis)
    ensures PredsSound(graph, Q[es[j] := Q[es[j]] + [v]], vis)
    ensures EdgesRecorded(es, j + 1, vis, Q[es[j] := Q[es[j]] + [v]], v)
    ensures Grows(Q, Q[es[j] := Q[es[j]] + [v]])
    ensures forall x :: x in vis && x !in vis0 && x != v ==> Finished(graph, Q[es[j] := Q[es[j]] + [v]], vis, x)
  {
    var Q1 := Q[es[j] := Q[es[j]] + [v]];
    assert Q[es[j]] <= Q1[es[j]];
    assert Grows(Q, Q1);
    EdgesRecordedGrows(es, j, vis, vis, Q, Q1, v);
    forall x | x in vis && x !in vis0 && x != v ensures Finished(graph, Q1, vis, x) {
      FinishedGrows(graph, Q, Q1, vis, vis, x);
    }
  }

  /** Setting the parent of a vertex not numbered yet keeps the state. */
  lemma SetParent(graph: seq<seq<int>>, S: seq<int>, P: seq<int>, V: seq<int>, Q: seq<seq<int>>, n: int, vis: set<int>, w: int, v: int)
    requires DfsState(graph, S, P, V, Q, n, vis) && 0 <= w < |graph| && w !in vis
    ensures DfsState(graph, S, P[w := v], V, Q, n, vis)
  {
  }

  /** Numbering `v` next keeps the state. */
  lemma NumberNext(graph: seq<seq<int>>, S: seq<int>, P: seq<int>, V: seq<int>, Q: seq<seq<int>>, n: int, vis: set<int>, v: int)
    requires DfsState(graph, S, P, V, Q, n, vis) && 0 <= v < |graph| && v !in vis && (v == 0 <==> n == 0)
    requires v != 0 ==> 0 <= P[v] < |graph| && P[v] in vis && v in graph[P[v]]
    ensures n < |graph|
    ensures DfsState(graph, S[v := n], P, V[n := v], Q, n + 1, vis + {v})
  {
    Counting.RangeBound(vis + {v}, |graph|);
    var S1 := S[v := n];
    var V1 := V[n := v];
    forall x | x in vis + {v} ensures 0 <= x < |graph| && 0 <= S1[x] < n + 1 && V1[S1[x]] == x {
      if x != v {
        assert S[x] < n;
      }
    }
  }

  /**
   * What a call `dfs(v)` leaves, from the state `S0`, `P0`, `Q0`, `n`, `vis`
   * it started in: the state is kept, `v` has number `n`, the numbered
   * vertices only grow, those numbered before keep their number and
   * parent, `v` keeps its parent, predecessor lists only grow, and every
   * vertex the call numbered is finished.
   */
  ghost predicate DfsPost(graph: seq<seq<int>>, v: int, n: int, vis: set<int>, S0: seq<int>, P0: seq<int>, Q0: seq<seq<int>>,
                          S: seq<int>, P: seq<int>, V: seq<int>, Q: seq<seq<int>>, n': int, vis': set<int>) {
    && DfsState(graph, S, P, V, Q, n', vis')
    && |S0| == |P0| == |graph| && 0 <= v < |graph|
    && vis + {v} <= vis' && S[v] == n && n' == |vis'|
    && (forall x :: x in vis ==> S[x] == S0[x] && P[x] == P0[x])
    && P[v] == P0[v]
    && Grows(Q0, Q)
    && (forall x :: x in vis' && x !in vis ==> 0 <= x < |graph| && Finished(graph, Q, vis', x))
  }

  /** The loop of `dfs(v)` after the first `j` successors `es` of `v`. */
  ghost predicate DfsLoop(graph: seq<seq<int>>, v: int, n: int, vis: set<int>, S0: seq<int>, P0: seq<int>, Q0: seq<seq<int>>,
                          es: seq<int>, j: int, S: seq<int>, P: seq<int>, V: seq<int>, Q: seq<seq<int>>, n': int, vis': set<int>) {
    && DfsState(graph, S, P, V, Q, n', vis')
    && |S0| == |P0| == |graph| && 0 <= v < |graph| && es == graph[v]
    && vis + {v} <= vis' && S[v] == n && n' == |vis'|
    && (forall x :: x in vis ==> S[x] == S0[x] && P[x] == P0[x])
    && P[v] == P0[v]
    && Grows(Q0, Q)
    && (forall x :: x in vis' && x !in vis && x != v ==> 0 <= x < |graph| && Finished(graph, Q, vis', x))
    && EdgesRecorded(es, j, vis', Q, v)
  }


  /** A child call leaves the loop where it was. */
  lemma DfsLoopChild(graph: seq<seq<int>>, v: int, n: int, vis: set<int>, S0: seq<int>, P0: seq<int>, Q0: seq<seq<int>>, es: seq<int>, j: int,
                     S1: seq<int>, P1: seq<int>, V1: seq<int>, Q1: seq<seq<int>>, n1: int, vis1: set<int>, w: int,
                     S2: seq<int>, P2: seq<int>, V2: seq<int>, Q2: seq<seq<int>>, n2: int, vis2: set<int>)
    requires DfsLoop(graph, v, n, vis, S0, P0, Q0, es, j, S1, P1, V1, Q1, n1, vis1) && 0 <= w < |graph| && w !in vis1
    requires DfsPost(graph, w, n1, vis1, S1, P1[w := v], Q1, S2, P2, V2, Q2, n2, vis2)
    ensures DfsLoop(graph, v, n, vis, S0, P0, Q0, es, j, S2, P2, V2, Q2, n2, vis2)
  {
    forall x | x in vis1 && x !in vis && x != v ensures Finished(graph, Q2, vis2, x) {
      FinishedGrows(graph, Q1, Q2, vis1, vis2, x);
    }
    EdgesRecordedGrows(es, j, vis1, vis2, Q1, Q2, v);
    assert Grows(Q0, Q2) by {
      forall x | 0 <= x < |Q0| ensures Q0[x] <= Q2[x] {
        assert Q0[x] <= Q1[x] <= Q2[x];
      }
    }
  }

  /** Recording the edge to the `j`-th successor moves the loop on. */
  lemma DfsLoopEdge(graph: seq<seq<int>>, v: int, n: int, vis: set<int>, S0: seq<int>, P0: seq<int>, Q0: seq<seq<int>>, es: seq<int>, j: int,
                    S: seq<int>, P: seq<int>, V: seq<int>, Q: seq<seq<int>>, n': int, vis': set<int>)
    requires DfsLoop(graph, v, n, vis, S0, P0, Q0, es, j, S, P, V, Q, n', vis') && j < |es| && es[j] in vis'
    ensures DfsLoop(graph, v, n, vis, S0, P0, Q0, es, j + 1, S, P, V, Q[es[j] := Q[es[j]] + [v]], n', vis')
  {
    var Q1 := Q[es[j] := Q[es[j]] + [v]];
    RecordEdge(graph, es, j, vis', Q, v, vis);
    assert Grows(Q0, Q1) by {
      forall x | 0 <= x < |Q0| ensures Q0[x] <= Q1[x] {
        assert Q0[x] <= Q[x] <= Q1[x];
      }
    }
  }

  lemma DfsLoopEnd(graph: seq<seq<int>>, v: int, n: int, vis: set<int>, S0: seq<int>, P0: seq<int>, Q0: seq<seq<int>>, es: seq<int>,
                   S: seq<int>, P: seq<int>, V: seq<int>, Q: seq<seq<int>>, n': int, vis': set<int>)
    requires DfsLoop(graph, v, n, vis, S0, P0, Q0, es, |es|, S, P, V, Q, n', vis')
    ensures DfsPost(graph, v, n, vis, S0, P0, Q0, S, P, V, Q, n', vis')
  {
  }

  /**
   * `dfs`: gives `v` the next preorder number, then visits, in order, every
   * successor other than 0 that is still unnumbered (recording `v` as its
   * parent), and appends `v` to the predecessor list of every successor.
   * The vertices numbered by the call are exactly those newly in `vis'`;
   * each of them ends finished, and nothing numbered before changes.
   * The vectors the source passes by reference come in as values and go
   * out as results.
   */
  method Dfs(v: int, n: int, graph: seq<seq<int>>, semi: seq<int>, parent: seq<int>, vertex: seq<int>,
             pred: seq<seq<int>>, ghost vis: set<int>)
    returns (n': int, semi': seq<int>, parent': seq<int>, vertex': seq<int>, pred': seq<seq<int>>, ghost vis': set<int>)
    requires DfsState(graph, semi, parent, vertex, pred, n, vis)
    requires 0 <= v < |graph| && v !in vis && (v == 0 <==> n == 0)
    requires v != 0 ==> 0 <= parent[v] < |graph| && parent[v] in vis && v in graph[parent[v]]
    decreases |graph| - |vis|
    ensures DfsPost(graph, v, n, vis, semi, parent, pred, semi', parent', vertex', pred', n', vis')
  {
    NumberNext(graph, semi, parent, vertex, pred, n, vis, v);
    semi' := semi[v := n];
    vertex' := vertex[n := v];
    parent', pred' := parent, pred;
    n' := n + 1;
    vis' := vis + {v};
    var es := graph[v];
    for j := 0 to |es|
      invariant DfsLoop(graph, v, n, vis, semi, parent, pred, es, j, semi', parent', vertex', pred', n', vis')
    {
      var w := es[j];
      if w != 0 && semi'[w] == 0 {
        ghost var S1, P1, V1, Q1, n1, vis1 := semi', parent', vertex', pred', n', vis';
        assert w !in vis';
        SetParent(graph, S1, P1, V1, Q1, n', vis', w, v);
        parent' := parent'[w := v];
        n', semi', parent', vertex', pred', vis' := Dfs(w, n', graph, semi', parent', vertex', pred', vis');
        DfsLoopChild(graph, v, n, vis, semi, parent, pred, es, j, S1, P1, V1, Q1, n1, vis1, w, semi', parent', vertex', pred', n', vis');
      }
      DfsLoopEdge(graph, v, n, vis, semi, parent, pred, es, j, semi', parent', vertex', pred', n', vis');
      pred' := pred'[w := pred'[w] + [v]];
    }
    DfsLoopEnd(graph, v, n, vis, semi, parent, pred, es, semi', parent', vertex', pred', n', vis');
  }

  /** Every vertex of a set closed under edges and holding 0 is reached from 0. */
  lemma {:induction false} ReachClosed(graph: seq<seq<int>>, vis: set<int>, k: nat)
    requires 0 in vis
    requires forall v, j :: v in vis && 0 <= v < |graph| && 0 <= j < |graph[v]| ==> graph[v][j] in vis
    ensures ReachWithin(graph, k) <= vis
  {
    if k > 0 {
      ReachClosed(graph, vis, k - 1);
    }
  }

  /**
   * What numbering leaves when every vertex is reachable: `pre` (the numbers
   * `dfs` writes into `semi`) and `vertex` are inverse permutations of
   * `0..N-1` with vertex 0 first, every other vertex has a parent numbered
   * before it with an edge to it, and `pred[w]` lists exactly the vertices
   * with an edge to `w`.
   */
  predicate Preorder(graph: seq<seq<int>>, pre: seq<int>, parent: seq<int>, vertex: seq<int>, pred: seq<seq<int>>) {
    && IsGraph(graph) && |graph| >= 1
    && |pre| == |graph| && |parent| == |graph| && |vertex| == |graph| && |pred| == |graph|
    && (forall x :: 0 <= x < |graph| ==> 0 <= pre[x] < |graph| && vertex[pre[x]] == x)
    && (forall k :: 0 <= k < |graph| ==> 0 <= vertex[k] < |graph| && pre[vertex[k]] == k)
    && pre[0] == 0
    && (forall x :: 0 < x < |graph| ==> 0 <= parent[x] < |graph| && pre[parent[x]] < pre[x] && parent[x] in pred[x])
    && (forall w, j :: 0 <= w < |graph| && 0 <= j < |pred[w]| ==> 0 <= pred[w][j] < |graph| && w in graph[pred[w][j]])
    && (forall v, j :: 0 <= v < |graph| && 0 <= j < |graph[v]| ==> v in pred[graph[v][j]])
  }

  /** A full depth-first search from 0 numbers every vertex when all are reachable. */
  lemma DfsNumbersAll(graph: seq<seq<int>>, S: seq<int>, P: seq<int>, V: seq<int>, Q: seq<seq<int>>, n: int, vis: set<int>)
    requires DfsState(graph, S, P, V, Q, n, vis) && 0 in vis && AllReachable(graph)
    requires forall x :: x in vis ==> 0 <= x < |graph| && Finished(graph, Q, vis, x)
    ensures vis == Range(|graph|) && n == |graph|
  {
    forall v, j | v in vis && 0 <= v < |graph| && 0 <= j < |graph[v]| ensures graph[v][j] in vis {
      assert Finished(graph, Q, vis, v);
    }
    ReachClosed(graph, vis, |graph|);
  }

  lemma DfsPreorder(graph: seq<seq<int>>, S: seq<int>, P: seq<int>, V: seq<int>, Q: seq<seq<int>>, vis: set<int>)
    requires DfsState(graph, S, P, V, Q, |graph|, vis) && vis == Range(|graph|) && |graph| >= 1
    requires forall x :: x in vis ==> 0 <= x < |graph| && Finished(graph, Q, vis, x)
    ensures Preorder(graph, S, P, V, Q)
  {
    forall x | 0 < x < |graph| ensures P[x] in Q[x] {
      var p := P[x];
      assert x in vis;
      assert Finished(graph, Q, vis, p);
      var j :| 0 <= j < |graph[p]| && graph[p][j] == x;
    }
    forall v, j | 0 <= v < |graph| && 0 <= j < |graph[v]| ensures v in Q[graph[v][j]] {
      assert v in vis && Finished(graph, Q, vis, v);
    }
  }

  /**
   * The zeroed vectors and the call `dfs(0, n, ...)`. With every
   * vertex reachable from 0, all `N` vertices get numbered, in preorder.
   */
  method Number(graph: seq<seq<int>>) returns (n: int, semi: seq<int>, parent: seq<int>, vertex: seq<int>, pred: seq<seq<int>>)
    requires IsGraph(graph) && |graph| >= 1 && AllReachable(graph)
    ensures n == |graph| && Preorder(graph, semi, parent, vertex, pred)
  {
    var N := |graph|;
    var zeros := seq(N, _ => 0);
    var empty: seq<seq<int>> := seq(N, _ => []);
    ghost var vis;
    n, semi, parent, vertex, pred, vis := Dfs(0, 0, graph, zeros, zeros, zeros, empty, {});
    DfsNumbersAll(graph, semi, parent, vertex, pred, n, vis);
    DfsPreorder(graph, semi, parent, vertex, pred, vis);
  }

  /** `pre` numbers the vertices `0..N-1` without repeats. */
  ghost predicate Ranks(pre: seq<int>) {
    && (forall x :: 0 <= x < |pre| ==> 0 <= pre[x] < |pre|)
    && (forall x, y :: 0 <= x < |pre| && 0 <= y < |pre| && pre[x] == pre[y] ==> x == y)
  }

  /**
   * The path-compression forest: a vertex has no ancestor (-1) or one with
   * a smaller number, and its label is a vertex numbered no later than it.
   */
  ghost predicate Forest(ancestor: seq<int>, labels: seq<int>, pre: seq<int>) {
    && Ranks(pre) && |ancestor| == |pre| && |labels| == |pre|
    && (forall x :: 0 <= x < |pre| ==> ancestor[x] == -1 || (0 <= ancestor[x] < |pre| && pre[ancestor[x]] < pre[x]))
    && (forall x :: 0 <= x < |pre| ==> 0 <= labels[x] < |pre| && pre[labels[x]] <= pre[x])
  }

  /** Compression moves nothing into or out of the forest and leaves vertices numbered after `v` alone. */
  ghost predicate CompressFrame(ancestor: seq<int>, labels: seq<int>, ancestor': seq<int>, labels': seq<int>, pre: seq<int>, v: int) {
    && |ancestor| == |ancestor'| == |labels| == |labels'| == |pre| && 0 <= v < |pre|
    && (forall x :: 0 <= x < |pre| ==> (ancestor'[x] == -1 <==> ancestor[x] == -1))
    && (forall x :: 0 <= x < |pre| && pre[x] > pre[v] ==> ancestor'[x] == ancestor[x] && labels'[x] == labels[x])
  }

  /**
   * The smallest `semi` of a label on the forest path from `x` up to, but
   * not including, the root of its tree: what `eval` is meant to find.
   */
  ghost function PathMin(ancestor: seq<int>, labels: seq<int>, semi: seq<int>, pre: seq<int>, x: int): int
    requires Forest(ancestor, labels, pre) && |semi| == |pre| && 0 <= x < |pre| && ancestor[x] != -1
    decreases pre[x]
  {
    if ancestor[ancestor[x]] == -1 then semi[labels[x]]
    else
      var m := PathMin(ancestor, labels, semi, pre, ancestor[x]);
      if m < semi[labels[x]] then m else semi[labels[x]]
  }

  /** Pointing `v` at the root of its tree, with the path's best label, changes no path minimum. */
  lemma {:induction false} ShortcutMin(ancestor: seq<int>, labels: seq<int>, ancestor': seq<int>, labels': seq<int>,
                                       semi: seq<int>, pre: seq<int>, v: int, x: int)
    requires Forest(ancestor, labels, pre) && Forest(ancestor', labels', pre) && |semi| == |pre|
    requires 0 <= v < |pre| && ancestor[v] != -1 && ancestor[ancestor[v]] != -1
    requires ancestor' == ancestor[v := ancestor'[v]] && labels' == labels[v := labels'[v]]
    requires ancestor'[v] != -1 && ancestor[ancestor'[v]] == -1
    requires semi[labels'[v]] == PathMin(ancestor, labels, semi, pre, v)
    requires 0 <= x < |pre| && ancestor[x] != -1
    decreases pre[x]
    ensures PathMin(ancestor', labels', semi, pre, x) == PathMin(ancestor, labels, semi, pre, x)
  {
    if x != v && ancestor[ancestor[x]] != -1 {
      ShortcutMin(ancestor, labels, ancestor', labels', semi, pre, v, ancestor[x]);
    }
  }

  /** The last step of `compress` keeps the forest and touches only `v`. */
  lemma ShortcutForest(anc0: seq<int>, lab0: seq<int>, anc1: seq<int>, lab1: seq<int>, anc2: seq<int>, lab2: seq<int>,
                       pre: seq<int>, v: int)
    requires Forest(anc0, lab0, pre) && 0 <= v < |pre| && anc0[v] != -1 && anc0[anc0[v]] != -1
    requires Forest(anc1, lab1, pre) && CompressFrame(anc0, lab0, anc1, lab1, pre, anc0[v])
    requires anc1[anc0[v]] != -1
    requires anc2 == anc1[v := anc1[anc1[v]]]
    requires |lab2| == |lab1| && lab2 == lab1[v := lab2[v]] && (lab2[v] == lab1[v] || lab2[v] == lab1[anc1[v]])
    ensures Forest(anc2, lab2, pre) && CompressFrame(anc0, lab0, anc2, lab2, pre, v)
  {
    assert anc1[v] == anc0[v] && lab1[v] == lab0[v];
  }

  /** The last step of `compress` leaves `v` next to its root with the path's best label. */
  lemma ShortcutPaths(anc0: seq<int>, lab0: seq<int>, anc1: seq<int>, lab1: seq<int>, anc2: seq<int>, lab2: seq<int>,
                      semi: seq<int>, pre: seq<int>, v: int)
    requires Forest(anc0, lab0, pre) && |semi| == |pre| && 0 <= v < |pre| && anc0[v] != -1 && anc0[anc0[v]] != -1
    requires Forest(anc1, lab1, pre) && CompressFrame(anc0, lab0, anc1, lab1, pre, anc0[v])
    requires Forest(anc2, lab2, pre) && CompressFrame(anc0, lab0, anc2, lab2, pre, v)
    requires anc1[anc0[v]] != -1 && anc1[anc1[anc0[v]]] == -1
    requires semi[lab1[anc0[v]]] == PathMin(anc0, lab0, semi, pre, anc0[v])
    requires forall x :: 0 <= x < |pre| && anc0[x] != -1 ==> PathMin(anc1, lab1, semi, pre, x) == PathMin(anc0, lab0, semi, pre, x)
    requires anc2 == anc1[v := anc1[anc1[v]]]
    requires lab2 == lab1[v := if semi[lab1[anc1[v]]] < semi[lab1[v]] then lab1[anc1[v]] else lab1[v]]
    ensures anc2[v] != -1 && anc2[anc2[v]] == -1
    ensures semi[lab2[v]] == PathMin(anc0, lab0, semi, pre, v)
    ensures forall x :: 0 <= x < |pre| && anc0[x] != -1 ==> PathMin(anc2, lab2, semi, pre, x) == PathMin(anc0, lab0, semi, pre, x)
  {
    forall x | 0 <= x < |pre| && anc0[x] != -1
      ensures PathMin(anc2, lab2, semi, pre, x) == PathMin(anc0, lab0, semi, pre, x)
    {
      ShortcutMin(anc1, lab1, anc2, lab2, semi, pre, v, x);
    }
  }

  /** `link`: `v` becomes the forest ancestor of `w`. */
  function Link(v: int, w: int, ancestor: seq<int>): (r: seq<int>)
    requires 0 <= w < |ancestor|
    ensures |r| == |ancestor| && r[w] == v && forall x :: 0 <= x < |r| && x != w ==> r[x] == ancestor[x]
  {
    ancestor[w := v]
  }

  /**
   * `compress`: once the ancestor of `v` has an ancestor itself, compresses
   * from there first, lets `v` take its ancestor's label when that has a
   * smaller `semi`, and skips `v`'s ancestor.
   */
  method Compress(v: int, ancestor: seq<int>, labels: seq<int>, semi: seq<int>, ghost pre: seq<int>)
    returns (ancestor': seq<int>, labels': seq<int>)
    requires Forest(ancestor, labels, pre) && |semi| == |pre| && 0 <= v < |pre| && ancestor[v] != -1
    decreases pre[v]
    ensures Forest(ancestor', labels', pre) && CompressFrame(ancestor, labels, ancestor', labels', pre, v)
    ensures ancestor'[v] != -1 && ancestor'[ancestor'[v]] == -1
    ensures semi[labels'[v]] == PathMin(ancestor, labels, semi, pre, v)
    ensures forall x :: 0 <= x < |pre| && ancestor[x] != -1 ==>
              PathMin(ancestor', labels', semi, pre, x) == PathMin(ancestor, labels, semi, pre, x)
  {
    ancestor', labels' := ancestor, labels;
    if ancestor'[ancestor'[v]] != -1 {
      ancestor', labels' := Compress(ancestor'[v], ancestor', labels', semi, pre);
      ghost var anc1, lab1 := ancestor', labels';
      if semi[labels'[ancestor'[v]]] < semi[labels'[v]] {
        labels' := labels'[v := labels'[ancestor'[v]]];
      }
      ancestor' := ancestor'[v := ancestor'[ancestor'[v]]];
      ShortcutForest(ancestor, labels, anc1, lab1, ancestor', labels', pre, v);
      ShortcutPaths(ancestor, labels, anc1, lab1, ancestor', labels', semi, pre, v);
    }
  }

  /**
   * `eval`: a vertex with no ancestor is its own answer; otherwise, after
   * compression, its label: a vertex numbered no later than `v`.
   */
  method Eval(v: int, ancestor: seq<int>, labels: seq<int>, semi: seq<int>, ghost pre: seq<int>)
    returns (u: int, ancestor': seq<int>, labels': seq<int>)
    requires Forest(ancestor, labels, pre) && |semi| == |pre| && 0 <= v < |pre|
    ensures 0 <= u < |pre| && pre[u] <= pre[v] && (ancestor[v] == -1 ==> u == v)
    ensures ancestor[v] != -1 ==> semi[u] == PathMin(ancestor, labels, semi, pre, v)
    ensures Forest(ancestor', labels', pre) && CompressFrame(ancestor, labels, ancestor', labels', pre, v)
    ensures forall x :: 0 <= x < |pre| && ancestor[x] != -1 ==>
              PathMin(ancestor', labels', semi, pre, x) == PathMin(ancestor, labels, semi, pre, x)
  {
    if ancestor[v] == -1 {
      return v, ancestor, labels;
    }
    ancestor', labels' := Compress(v, ancestor, labels, semi, pre);
    u := labels'[v];
  }

  /**
   * The semi-dominator pass before handling number `i` (all numbers above
   * `i` done): vertices numbered up to `i` are outside the forest with
   * `semi` still their own number; `semi` never exceeds the number and is
   * below it for the vertices done; every vertex waiting in `bucket[p]` is
   * done and has `p` as the vertex its `semi` names; the dominator guess
   * of every vertex but 0 is numbered before it.
   */
  ghost predicate SemiState(pre: seq<int>, vertex: seq<int>, semi: seq<int>, ancestor: seq<int>, labels: seq<int>,
                            dom: seq<int>, bucket: seq<seq<int>>, i: int) {
    && Forest(ancestor, labels, pre) && |vertex| == |semi| == |dom| == |bucket| == |pre|
    && (forall x :: 0 <= x < |pre| && pre[x] <= i ==> ancestor[x] == -1 && semi[x] == pre[x])
    && (forall x :: 0 <= x < |pre| ==> 0 <= semi[x] <= pre[x] && (pre[x] > i ==> semi[x] < pre[x]))
    && (forall p, k :: 0 <= p < |pre| && 0 <= k < |bucket[p]| ==>
          0 <= bucket[p][k] < |pre| && pre[bucket[p][k]] > i && vertex[semi[bucket[p][k]]] == p)
    && (forall x :: 0 <= x < |pre| && pre[x] >= 1 ==> 0 <= dom[x] < |pre| && pre[dom[x]] < pre[x])
  }

  /** A preorder numbering gives distinct numbers. */
  lemma PreorderRanks(graph: seq<seq<int>>, pre: seq<int>, parent: seq<int>, vertex: seq<int>, pred: seq<seq<int>>)
    requires Preorder(graph, pre, parent, vertex, pred)
    ensures Ranks(pre)
  {
    forall x, y | 0 <= x < |pre| && 0 <= y < |pre| && pre[x] == pre[y] ensures x == y {
      assert vertex[pre[x]] == x && vertex[pre[y]] == y;
    }
  }

  lemma SemiStart(graph: seq<seq<int>>, pre: seq<int>, parent: seq<int>, vertex: seq<int>, pred: seq<seq<int>>,
                  ancestor: seq<int>, labels: seq<int>)
    requires Preorder(graph, pre, parent, vertex, pred)
    requires |ancestor| == |labels| == |pre| && forall x :: 0 <= x < |pre| ==> ancestor[x] == -1 && labels[x] == x
    ensures SemiState(pre, vertex, pre, ancestor, labels, seq(|pre|, _ => 0), seq(|pre|, _ => []), |pre| - 1)
  {
    PreorderRanks(graph, pre, parent, vertex, pred);
    forall x | 0 <= x < |pre| && pre[x] >= 1 ensures pre[0] < pre[x] {
    }
  }

  /** Compression keeps the pass's state. */
  lemma SemiEval(pre: seq<int>, vertex: seq<int>, semi: seq<int>, ancestor: seq<int>, labels: seq<int>, dom: seq<int>, bucket: seq<seq<int>>,
                 i: int, ancestor': seq<int>, labels': seq<int>, v: int)
    requires SemiState(pre, vertex, semi, ancestor, labels, dom, bucket, i)
    requires Forest(ancestor', labels', pre) && CompressFrame(ancestor, labels, ancestor', labels', pre, v)
    ensures SemiState(pre, vertex, semi, ancestor', labels', dom, bucket, i)
  {
  }

  /** Lowering `semi[w]` for the vertex numbered `i`, within its own number. */
  lemma SemiLower(pre: seq<int>, vertex: seq<int>, semi: seq<int>, ancestor: seq<int>, labels: seq<int>, dom: seq<int>, bucket: seq<seq<int>>,
                  i: int, w: int, s: int)
    requires 0 <= w < |pre| == |semi| && pre[w] == i && 0 <= s <= pre[w]
    requires SemiState(pre, vertex, semi[w := pre[w]], ancestor, labels, dom, bucket, i)
    ensures SemiState(pre, vertex, semi[w := s][w := pre[w]], ancestor, labels, dom, bucket, i)
  {
    assert semi[w := s][w := pre[w]] == semi[w := pre[w]];
  }

  /** A vertex numbered before `w` has its `semi` below `w`'s number. */
  lemma SemiBelow(pre: seq<int>, vertex: seq<int>, semi: seq<int>, ancestor: seq<int>, labels: seq<int>, dom: seq<int>, bucket: seq<seq<int>>,
                  i: int, w: int, u: int)
    requires 0 <= w < |pre| == |semi| && 0 <= u < |pre| && pre[u] < pre[w]
    requires SemiState(pre, vertex, semi[w := pre[w]], ancestor, labels, dom, bucket, i)
    ensures 0 <= semi[u] < pre[w]
  {
    assert semi[u] == semi[w := pre[w]][u];
  }

  /** With `semi[w]` below its number, `w` waits in a bucket and is linked: the vertex numbered `i` is done. */
  lemma SemiLink(graph: seq<seq<int>>, pre: seq<int>, parent: seq<int>, vertex: seq<int>, pred: seq<seq<int>>,
                 semi: seq<int>, ancestor: seq<int>, labels: seq<int>, dom: seq<int>, bucket: seq<seq<int>>, i: int, w: int)
    requires Preorder(graph, pre, parent, vertex, pred) && 0 < i < |pre| && w == vertex[i] && |semi| == |pre|
    requires SemiState(pre, vertex, semi[w := pre[w]], ancestor, labels, dom, bucket, i)
    requires 0 <= semi[w] < pre[w]
    ensures SemiState(pre, vertex, semi, Link(parent[w], w, ancestor), labels, dom,
                      bucket[vertex[semi[w]] := bucket[vertex[semi[w]]] + [w]], i - 1)
  {
    var semi0 := semi[w := pre[w]];
    var p := vertex[semi[w]];
    var bucket' := bucket[p := bucket[p] + [w]];
    var ancestor' := Link(parent[w], w, ancestor);
    assert w != 0 && pre[w] == i;
    assert Forest(ancestor', labels, pre) by {
      forall x | 0 <= x < |pre|
        ensures ancestor'[x] == -1 || (0 <= ancestor'[x] < |pre| && pre[ancestor'[x]] < pre[x])
      {
        if x != w {
          assert ancestor'[x] == ancestor[x];
        }
      }
    }
    forall x | 0 <= x < |pre| && pre[x] <= i - 1 ensures ancestor'[x] == -1 && semi[x] == pre[x] {
      assert x != w && semi[x] == semi0[x];
    }
    forall x | 0 <= x < |pre| ensures 0 <= semi[x] <= pre[x] && (pre[x] > i - 1 ==> semi[x] < pre[x]) {
      if x != w {
        assert semi[x] == semi0[x];
        if pre[x] > i - 1 {
          assert pre[x] != i;
        }
      }
    }
    forall q, k | 0 <= q < |pre| && 0 <= k < |bucket'[q]|
      ensures 0 <= bucket'[q][k] < |pre| && pre[bucket'[q][k]] > i - 1 && vertex[semi[bucket'[q][k]]] == q
    {
      if q == p && k == |bucket[p]| {
        assert bucket'[q][k] == w;
      } else {
        assert bucket'[q][k] == bucket[q][k];
        assert bucket[q][k] != w;
        assert semi[bucket[q][k]] == semi0[bucket[q][k]];
      }
    }
  }

  /** The dominator guess for a vertex `v` waiting in the bucket of `p`. */
  lemma SemiGuess(pre: seq<int>, vertex: seq<int>, semi: seq<int>, ancestor: seq<int>, labels: seq<int>, dom: seq<int>, bucket: seq<seq<int>>,
                  i: int, v: int, u: int, p: int)
    requires SemiState(pre, vertex, semi, ancestor, labels, dom, bucket, i)
    requires 0 <= v < |pre| && pre[v] > i && 0 <= semi[v] && vertex[semi[v]] == p
    requires 0 <= u < |pre| && pre[u] <= pre[v]
    requires forall k :: 0 <= k < |pre| ==> 0 <= vertex[k] < |pre| && pre[vertex[k]] == k
    ensures SemiState(pre, vertex, semi, ancestor, labels, dom[v := if semi[u] < semi[v] then u else p], bucket, i)
  {
    assert semi[v] < pre[v];
  }

  lemma SemiClear(pre: seq<int>, vertex: seq<int>, semi: seq<int>, ancestor: seq<int>, labels: seq<int>, dom: seq<int>, bucket: seq<seq<int>>,
                  i: int, p: int)
    requires SemiState(pre, vertex, semi, ancestor, labels, dom, bucket, i) && 0 <= p < |pre|
    ensures SemiState(pre, vertex, semi, ancestor, labels, dom, bucket[p := []], i)
  {
  }

  /**
   * `semi[w]` drops to the least `semi` of `eval(v)` over the
   * predecessors `v` of `w`; the DFS parent is such a predecessor, so it
   * ends below `w`'s own number.
   */
  method LowerSemi(graph: seq<seq<int>>, pre: seq<int>, parent: seq<int>, vertex: seq<int>, pred: seq<seq<int>>,
                   semi: seq<int>, ancestor: seq<int>, labels: seq<int>, ghost dom: seq<int>, ghost bucket: seq<seq<int>>, i: int)
    returns (semi': seq<int>, ancestor': seq<int>, labels': seq<int>)
    requires Preorder(graph, pre, parent, vertex, pred) && 0 < i < |pre|
    requires SemiState(pre, vertex, semi, ancestor, labels, dom, bucket, i)
    ensures |semi'| == |pre| && semi'[vertex[i] := i] == semi && 0 <= semi'[vertex[i]] < i
    ensures SemiState(pre, vertex, semi, ancestor', labels', dom, bucket, i)
  {
    var w := vertex[i];
    assert semi[w := pre[w]] == semi;
    ghost var idx :| 0 <= idx < |pred[w]| && pred[w][idx] == parent[w];
    assert w != 0 && pre[parent[w]] < pre[w];
    semi', ancestor', labels' := semi, ancestor, labels;
    for j := 0 to |pred[w]|
      invariant |semi'| == |pre| && semi'[w := pre[w]] == semi
      invariant 0 <= semi'[w] <= pre[w] && (j > idx ==> semi'[w] < pre[w])
      invariant SemiState(pre, vertex, semi, ancestor', labels', dom, bucket, i)
    {
      var u;
      ghost var anc0, lab0 := ancestor', labels';
      u, ancestor', labels' := Eval(pred[w][j], ancestor', labels', semi', pre);
      SemiEval(pre, vertex, semi, anc0, lab0, dom, bucket, i, ancestor', labels', pred[w][j]);
      if j == idx {
        SemiBelow(pre, vertex, semi', ancestor', labels', dom, bucket, i, w, u);
      }
      if semi'[u] < semi'[w] {
        SemiLower(pre, vertex, semi', ancestor', labels', dom, bucket, i, w, semi'[u]);
        semi' := semi'[w := semi'[u]];
      }
    }
  }

  /**
   * Every vertex `v` waiting in the bucket of `p` gets `eval(v)`
   * as its dominator guess when that has a smaller `semi`, and `p` otherwise.
   */
  method AssignGuesses(pre: seq<int>, vertex: seq<int>, semi: seq<int>, ancestor: seq<int>, labels: seq<int>, dom: seq<int>,
                       bucket: seq<seq<int>>, i: int, p: int)
    returns (dom': seq<int>, ancestor': seq<int>, labels': seq<int>)
    requires SemiState(pre, vertex, semi, ancestor, labels, dom, bucket, i) && 0 <= p < |pre|
    requires forall k :: 0 <= k < |pre| ==> 0 <= vertex[k] < |pre| && pre[vertex[k]] == k
    ensures SemiState(pre, vertex, semi, ancestor', labels', dom', bucket, i)
  {
    dom', ancestor', labels' := dom, ancestor, labels;
    var b := bucket[p];
    for j := 0 to |b|
      invariant SemiState(pre, vertex, semi, ancestor', labels', dom', bucket, i)
    {
      var v := b[j];
      var u;
      ghost var anc0, lab0 := ancestor', labels';
      u, ancestor', labels' := Eval(v, ancestor', labels', semi, pre);
      SemiEval(pre, vertex, semi, anc0, lab0, dom', bucket, i, ancestor', labels', v);
      SemiGuess(pre, vertex, semi, ancestor', labels', dom', bucket, i, v, u, p);
      if semi[u] < semi[v] {
        dom' := dom'[v := u];
      } else {
        dom' := dom'[v := p];
      }
    }
  }

  /**
   * For the vertices in decreasing preorder, `semi[w]` is
   * lowered, `w` waits in the bucket of the vertex its `semi` names, `w` is
   * linked under its parent, and every vertex waiting in the parent's bucket
   * gets its dominator guess. Afterwards `semi` of every vertex but 0 is
   * below its own number, and the guess of every vertex but 0 is a vertex
   * numbered before it.
   */
  method SemiDominators(graph: seq<seq<int>>, n: int, pre: seq<int>, parent: seq<int>, vertex: seq<int>, pred: seq<seq<int>>,
                        ancestor: seq<int>, labels: seq<int>)
    returns (semi: seq<int>, dom: seq<int>)
    requires n == |graph| && Preorder(graph, pre, parent, vertex, pred)
    requires |ancestor| == |labels| == n && forall x :: 0 <= x < n ==> ancestor[x] == -1 && labels[x] == x
    ensures |semi| == |dom| == n
    ensures forall x :: 0 <= x < n ==> 0 <= semi[x] <= pre[x] && (x != 0 ==> semi[x] < pre[x])
    ensures forall x :: 0 < x < n ==> 0 <= dom[x] < n && pre[dom[x]] < pre[x]
  {
    SemiStart(graph, pre, parent, vertex, pred, ancestor, labels);
    semi := pre;
    dom := seq(n, _ => 0);
    var bucket: seq<seq<int>> := seq(n, _ => []);
    var anc, lab := ancestor, labels;
    var i := n - 1;
    while i > 0
      invariant 0 <= i < n
      invariant SemiState(pre, vertex, semi, anc, lab, dom, bucket, i)
    {
      var w := vertex[i];
      semi, anc, lab := LowerSemi(graph, pre, parent, vertex, pred, semi, anc, lab, dom, bucket, i);
      SemiLink(graph, pre, parent, vertex, pred, semi, anc, lab, dom, bucket, i, w);
      bucket := bucket[vertex[semi[w]] := bucket[vertex[semi[w]]] + [w]];
      anc := Link(parent[w], w, anc);
      dom, anc, lab := AssignGuesses(pre, vertex, semi, anc, lab, dom, bucket, i - 1, parent[w]);
      SemiClear(pre, vertex, semi, anc, lab, dom, bucket, i - 1, parent[w]);
      bucket := bucket[parent[w] := []];
      i := i - 1;
    }
  }

  /** The number of vertices below `k` numbered in `[1, i)` whose dominator is `v`. */
  function Counted(dom: seq<int>, pre: seq<int>, v: int, i: int, k: int): (r: nat)
    requires |dom| == |pre| && 0 <= k <= |pre|
    ensures r <= k
  {
    if k == 0 then 0 else Counted(dom, pre, v, i, k - 1) + (if dom[k - 1] == v && 1 <= pre[k - 1] < i then 1 else 0)
  }

  /** Fixing the dominator of the vertex numbered `i` counts it under its new dominator. */
  lemma {:induction false} CountedStep(dom: seq<int>, pre: seq<int>, v: int, i: int, k: int, w: int, y: int)
    requires |dom| == |pre| && 0 <= k <= |pre| && 0 <= w < |pre| && pre[w] == i >= 1
    requires forall c :: 0 <= c < |pre| && pre[c] == i ==> c == w
    ensures Counted(dom[w := y], pre, v, i + 1, k) == Counted(dom, pre, v, i, k) + (if w < k && y == v then 1 else 0)
  {
    if k > 0 {
      CountedStep(dom, pre, v, i, k - 1, w, y);
    }
  }

  lemma {:induction false} CountedNone(dom: seq<int>, pre: seq<int>, v: int, k: int)
    requires |dom| == |pre| && 0 <= k <= |pre|
    ensures Counted(dom, pre, v, 1, k) == 0
  {
    if k > 0 {
      CountedNone(dom, pre, v, k - 1);
    }
  }

  /** Once every vertex but the root is numbered below `i`, the count is the number of children. */
  lemma {:induction false} CountedAll(dom: seq<int>, pre: seq<int>, v: int, i: int, k: int)
    requires |dom| == |pre| && 0 <= k <= |pre| && v >= 0
    requires forall c :: 0 <= c < k ==> 0 <= pre[c] < i && (pre[c] == 0 ==> dom[c] == -1)
    ensures Counted(dom, pre, v, i, k) == Children(dom, v, k)
  {
    if k > 0 {
      CountedAll(dom, pre, v, i, k - 1);
    }
  }

  /** The state of the dominator fix-up after the vertices numbered below `i`. */
  /**
   * The final dominator `dom'[x]` of `x` is its guess `dom[x]` when that is
   * the vertex its `semi` names, and the final dominator of the guess
   * otherwise.
   */
  ghost predicate Fixed(vertex: seq<int>, semi: seq<int>, dom: seq<int>, dom': seq<int>, x: int)
    requires 0 <= x < |semi| == |dom| == |dom'| && 0 <= semi[x] < |vertex| && 0 <= dom[x] < |dom'|
  {
    dom'[x] == if dom[x] == vertex[semi[x]] then dom[x] else dom'[dom[x]]
  }

  /** What the semi-dominator pass leaves for the fix-up: `semi` and the guesses `dom` point to earlier vertices. */
  ghost predicate IdomInputs(n: int, pre: seq<int>, vertex: seq<int>, semi: seq<int>, dom: seq<int>) {
    && Ranks(pre) && |pre| == n >= 1 && pre[0] == 0 && |vertex| == |semi| == |dom| == n
    && (forall k :: 0 <= k < n ==> 0 <= vertex[k] < n && pre[vertex[k]] == k)
    && (forall x :: 0 <= x < n ==> 0 <= semi[x] <= pre[x] && (x != 0 ==> semi[x] < pre[x]))
    && (forall x {:trigger dom[x]} :: 0 < x < n ==> 0 <= dom[x] < n && pre[dom[x]] < pre[x])
  }

  /** The dominators after the fix-up of the vertices numbered below `i`. */
  ghost predicate IdomDoms(n: int, pre: seq<int>, vertex: seq<int>, semi: seq<int>, dom: seq<int>, dom': seq<int>, i: int)
    requires IdomInputs(n, pre, vertex, semi, dom)
  {
    && |dom'| == n && dom'[0] == -1
    && (forall x {:trigger Fixed(vertex, semi, dom, dom', x)} :: 0 < x < n && pre[x] < i ==> Fixed(vertex, semi, dom, dom', x))
    && (forall x {:trigger dom'[x]} :: 0 < x < n && pre[x] >= i ==> dom'[x] == dom[x])
    && (forall x {:trigger dom'[x]} :: 0 <= x < n ==> dom'[x] == -1 || (0 <= dom'[x] < n && pre[dom'[x]] < pre[x]))
  }

  ghost predicate IdomState(n: int, pre: seq<int>, vertex: seq<int>, semi: seq<int>, dom: seq<int>,
                            dom': seq<int>, childCount: seq<int>, i: int) {
    && IdomInputs(n, pre, vertex, semi, dom) && 1 <= i <= n
    && IdomDoms(n, pre, vertex, semi, dom, dom', i)
    && |childCount| == n && (forall v :: 0 <= v < n ==> childCount[v] == Counted(dom', pre, v, i, n))
  }

  /** Fixing the dominator of the vertex numbered `i`. */
  lemma IdomStepDoms(n: int, pre: seq<int>, vertex: seq<int>, semi: seq<int>, dom: seq<int>, dom': seq<int>, i: int, dom'': seq<int>)
    requires IdomInputs(n, pre, vertex, semi, dom) && 1 <= i < n && IdomDoms(n, pre, vertex, semi, dom, dom', i)
    requires dom'' == if dom'[vertex[i]] == vertex[semi[vertex[i]]] then dom' else dom'[vertex[i] := dom'[dom'[vertex[i]]]]
    ensures IdomDoms(n, pre, vertex, semi, dom, dom'', i + 1)
    ensures dom'' == dom'[vertex[i] := dom''[vertex[i]]]
    ensures dom''[vertex[i]] == -1 || (0 <= dom''[vertex[i]] < n && pre[dom''[vertex[i]]] < i)
  {
    var w := vertex[i];
    assert w != 0 && pre[w] == i && dom'[w] == dom[w];
    var y := if dom[w] == vertex[semi[w]] then dom[w] else dom'[dom[w]];
    assert y == -1 || (0 <= y < n && pre[y] < i);
    var d := dom'[w := y];
    assert d == dom'';
    forall x | 0 < x < n && pre[x] < i + 1
      ensures Fixed(vertex, semi, dom, d, x)
    {
      if x != w {
        assert pre[x] < i && dom'[x] == d[x];
        assert Fixed(vertex, semi, dom, dom', x);
        if dom[x] != vertex[semi[x]] {
          assert dom[x] != w;
        }
      } else {
        assert d[w] == y && dom[w] != w;
      }
    }
    forall x | 0 < x < n && pre[x] >= i + 1 ensures d[x] == dom[x] {
      assert x != w;
    }
    forall x | 0 <= x < n ensures d[x] == -1 || (0 <= d[x] < n && pre[d[x]] < pre[x]) {
      if x != w {
        assert d[x] == dom'[x];
      }
    }
  }

  /** Fixing the dominator of the vertex numbered `i` and counting it under that dominator. */
  lemma IdomStep(n: int, pre: seq<int>, vertex: seq<int>, semi: seq<int>, dom: seq<int>,
                 dom': seq<int>, childCount: seq<int>, i: int, dom'': seq<int>, childCount': seq<int>)
    requires IdomState(n, pre, vertex, semi, dom, dom', childCount, i) && i < n
    requires dom'' == if dom'[vertex[i]] == vertex[semi[vertex[i]]] then dom' else dom'[vertex[i] := dom'[dom'[vertex[i]]]]
    requires childCount' == if dom''[vertex[i]] >= 0 then childCount[dom''[vertex[i]] := childCount[dom''[vertex[i]]] + 1] else childCount
    ensures IdomState(n, pre, vertex, semi, dom, dom'', childCount', i + 1)
  {
    IdomStepDoms(n, pre, vertex, semi, dom, dom', i, dom'');
    var w := vertex[i];
    assert pre[w] == i;
    forall v | 0 <= v < n ensures childCount'[v] == Counted(dom'', pre, v, i + 1, n) {
      CountedStep(dom', pre, v, i, n, w, dom''[w]);
    }
  }

  /**
   * The root's dominator becomes -1; in increasing preorder, a
   * vertex whose guess is not the vertex its `semi` names takes over the
   * (already final) dominator of its guess; and every vertex with a
   * dominator is counted as one of its children.
   */
  method ImmediateDominators(n: int, pre: seq<int>, vertex: seq<int>, semi: seq<int>, dom: seq<int>)
    returns (dom': seq<int>, childCount: seq<int>)
    requires IdomInputs(n, pre, vertex, semi, dom)
    ensures DomForest(dom', pre) && dom'[0] == -1
    ensures forall x {:trigger Fixed(vertex, semi, dom, dom', x)} :: 0 < x < n ==> Fixed(vertex, semi, dom, dom', x)
    ensures |childCount| == n && forall v :: 0 <= v < n ==> childCount[v] == Children(dom', v, n)
  {
    dom' := dom[0 := -1];
    childCount := seq(n, _ => 0);
    forall v | 0 <= v < n ensures Counted(dom', pre, v, 1, n) == 0 {
      CountedNone(dom', pre, v, n);
    }
    for i := 1 to n
      invariant IdomState(n, pre, vertex, semi, dom, dom', childCount, i)
    {
      var w := vertex[i];
      ghost var d0, c0 := dom', childCount;
      if dom'[w] != vertex[semi[w]] {
        dom' := dom'[w := dom'[dom'[w]]];
      }
      if dom'[w] >= 0 {
        childCount := childCount[dom'[w] := childCount[dom'[w]] + 1];
      }
      IdomStep(n, pre, vertex, semi, dom, d0, c0, i, dom', childCount);
    }
    forall v | 0 <= v < n ensures childCount[v] == Children(dom', v, n) {
      CountedAll(dom', pre, v, n, n);
    }
  }

  /** Bookkeeping of the leaf queue: who waits in it, who was ever pushed, who is done. */
  ghost predicate QueueState(N: int, childCount: seq<int>, done: seq<bool>, pushed: seq<bool>, queue: seq<int>) {
    && |childCount| == |done| == |pushed| == N
    && (forall k :: 0 <= k < |queue| ==> 0 <= queue[k] < N && pushed[queue[k]] && !done[queue[k]])
    && (forall j, k :: 0 <= j < k < |queue| ==> queue[j] != queue[k])
    && (forall x :: 0 <= x < N && pushed[x] && !done[x] ==> x in queue)
    && (forall x :: 0 <= x < N && done[x] ==> pushed[x])
    && (forall x :: 0 <= x < N && pushed[x] ==> childCount[x] == 0)
    && (forall x :: 1 <= x < N && childCount[x] == 0 ==> pushed[x])
  }

  /** `childCount` counts the children not yet done. */
  ghost predicate PendingCounts(dom: seq<int>, done: seq<bool>, childCount: seq<int>)
    requires |done| == |dom|
  {
    |childCount| == |dom| && forall v :: 0 <= v < |dom| ==> childCount[v] == Pending(dom, done, v, |dom|)
  }

  /** Every vertex holds its own size plus the retained sizes of its done children. */
  ghost predicate DoneSums(dom: seq<int>, pre: seq<int>, sizes: seq<int>, retained: seq<int>, done: seq<bool>)
    requires DomForest(dom, pre) && |sizes| == |done| == |pre|
  {
    |retained| == |pre| && forall v :: 0 <= v < |pre| ==> retained[v] == sizes[v] + DoneSum(dom, pre, sizes, done, v, |pre|)
  }

  /**
   * The state of leaf peeling: the queue bookkeeping, the pending counts,
   * the partial sums, and the sizes of the vertices not yet added to their
   * dominator adding up to the total size.
   */
  ghost predicate PeelState(dom: seq<int>, pre: seq<int>, sizes: seq<int>, retained: seq<int>, childCount: seq<int>,
                            done: seq<bool>, pushed: seq<bool>, queue: seq<int>) {
    && DomForest(dom, pre) && |pre| >= 1 && dom[0] == -1 && |sizes| == |retained| == |pre|
    && QueueState(|pre|, childCount, done, pushed, queue)
    && PendingCounts(dom, done, childCount)
    && DoneSums(dom, pre, sizes, retained, done)
    && LiveSum(retained, dom, done, |pre|) == Total(sizes, |pre|)
  }

  lemma PeelStart(dom: seq<int>, pre: seq<int>, sizes: seq<int>, childCount: seq<int>, done: seq<bool>, pushed: seq<bool>, queue: seq<int>)
    requires DomForest(dom, pre) && |pre| >= 1 && dom[0] == -1 && |sizes| == |pre|
    requires |childCount| == |pre| && forall v :: 0 <= v < |pre| ==> childCount[v] == Children(dom, v, |pre|)
    requires |done| == |pushed| == |pre| && forall x :: 0 <= x < |pre| ==> !done[x]
    requires forall x :: 0 <= x < |pre| ==> pushed[x] == (1 <= x && childCount[x] == 0)
    requires forall k :: 0 <= k < |queue| ==> 0 <= queue[k] < |pre| && pushed[queue[k]]
    requires forall j, k :: 0 <= j < k < |queue| ==> queue[j] < queue[k]
    requires forall x :: 0 <= x < |pre| && pushed[x] ==> x in queue
    ensures PeelState(dom, pre, sizes, sizes, childCount, done, pushed, queue)
  {
    forall v | 0 <= v < |pre| ensures childCount[v] == Pending(dom, done, v, |pre|) {
      PendingNoneDone(dom, done, v, |pre|);
    }
    forall v | 0 <= v < |pre| ensures DoneSum(dom, pre, sizes, done, v, |pre|) == 0 {
      DoneSumNoneDone(dom, pre, sizes, done, v, |pre|);
    }
    LiveNoneDone(sizes, dom, done, |pre|);
  }

  /** A vertex whose children are all done holds its whole retained size. */
  lemma PeelComplete(dom: seq<int>, pre: seq<int>, sizes: seq<int>, retained: seq<int>, childCount: seq<int>, done: seq<bool>, v: int)
    requires DomForest(dom, pre) && |sizes| == |done| == |pre|
    requires PendingCounts(dom, done, childCount) && DoneSums(dom, pre, sizes, retained, done)
    requires 0 <= v < |pre| && childCount[v] == 0
    ensures retained[v] == Subtree(dom, pre, sizes, v)
  {
    DoneSumAll(dom, pre, sizes, done, v, |pre|);
  }

  /** The retained sizes after popping `leaf`: its dominator, if any, absorbs it. */
  function Absorbed(dom: seq<int>, retained: seq<int>, leaf: int): seq<int>
    requires |retained| == |dom| && 0 <= leaf < |dom| && dom[leaf] < |dom|
  {
    if dom[leaf] >= 0 then retained[dom[leaf] := retained[dom[leaf]] + retained[leaf]] else retained
  }

  /** The child counts after popping `leaf`: its dominator, if any, has one pending child fewer. */
  function Decremented(dom: seq<int>, childCount: seq<int>, leaf: int): seq<int>
    requires |childCount| == |dom| && 0 <= leaf < |dom| && dom[leaf] < |dom|
  {
    if dom[leaf] >= 0 then childCount[dom[leaf] := childCount[dom[leaf]] - 1] else childCount
  }

  /** Marking `leaf` done lowers the pending count of its dominator by one. */
  lemma PeelCounts(dom: seq<int>, done: seq<bool>, childCount: seq<int>, leaf: int)
    requires |done| == |dom| && PendingCounts(dom, done, childCount) && 0 <= leaf < |dom| && !done[leaf] && dom[leaf] < |dom|
    ensures PendingCounts(dom, done[leaf := true], Decremented(dom, childCount, leaf))
  {
    var c := Decremented(dom, childCount, leaf);
    forall v | 0 <= v < |dom| ensures c[v] == Pending(dom, done[leaf := true], v, |dom|) {
      PendingMark(dom, done, v, |dom|, leaf);
    }
  }

  /** Marking a complete `leaf` done adds its retained size to its dominator. */
  lemma PeelSums(dom: seq<int>, pre: seq<int>, sizes: seq<int>, retained: seq<int>, done: seq<bool>, leaf: int)
    requires DomForest(dom, pre) && |sizes| == |done| == |pre| && DoneSums(dom, pre, sizes, retained, done)
    requires 0 <= leaf < |pre| && !done[leaf] && retained[leaf] == Subtree(dom, pre, sizes, leaf)
    ensures DoneSums(dom, pre, sizes, Absorbed(dom, retained, leaf), done[leaf := true])
  {
    var r := Absorbed(dom, retained, leaf);
    forall v | 0 <= v < |pre| ensures r[v] == sizes[v] + DoneSum(dom, pre, sizes, done[leaf := true], v, |pre|) {
      DoneSumMark(dom, pre, sizes, done, v, |pre|, leaf);
    }
  }

  /** Moving the size of `leaf` into its live dominator keeps the live total. */
  lemma PeelLive(dom: seq<int>, retained: seq<int>, done: seq<bool>, leaf: int)
    requires |retained| == |dom| == |done| && 0 <= leaf < |dom| && !done[leaf] && -1 <= dom[leaf] < |dom|
    requires dom[leaf] >= 0 ==> dom[leaf] != leaf && !done[dom[leaf]]
    ensures LiveSum(Absorbed(dom, retained, leaf), dom, done[leaf := true], |dom|) == LiveSum(retained, dom, done, |dom|)
  {
    LiveMark(Absorbed(dom, retained, leaf), dom, done, |dom|, leaf);
    if dom[leaf] >= 0 {
      LiveAdd(retained, dom, done, |dom|, dom[leaf], retained[leaf]);
    }
  }

  /** Popping the front leaf of the queue, adding it to its dominator if it has one. */
  lemma PeelPop(dom: seq<int>, pre: seq<int>, sizes: seq<int>, retained: seq<int>, childCount: seq<int>,
                done: seq<bool>, pushed: seq<bool>, queue: seq<int>)
    requires PeelState(dom, pre, sizes, retained, childCount, done, pushed, queue) && |queue| > 0
    ensures var leaf := queue[0];
            var d := dom[leaf];
            var c := Decremented(dom, childCount, leaf);
            var last := d >= 0 && c[d] == 0;
            PeelState(dom, pre, sizes, Absorbed(dom, retained, leaf), c, done[leaf := true],
                      if last then pushed[d := true] else pushed, if last then queue[1..] + [d] else queue[1..])
    ensures NotDone(done[queue[0] := true], |pre|) < NotDone(done, |pre|)
  {
    var N := |pre|;
    var leaf := queue[0];
    var d := dom[leaf];
    assert 0 <= leaf < N && pushed[leaf] && !done[leaf] && childCount[leaf] == 0;
    PeelComplete(dom, pre, sizes, retained, childCount, done, leaf);
    NotDoneMark(done, N, leaf);
    if d >= 0 {
      PendingMark(dom, done, d, N, leaf);
      assert childCount[d] >= 1 && !pushed[d] && !done[d] && d != leaf;
    }
    PeelCounts(dom, done, childCount, leaf);
    PeelSums(dom, pre, sizes, retained, done, leaf);
    PeelLive(dom, retained, done, leaf);
    PeelPopQueue(dom, childCount, done, pushed, queue);
  }

  lemma PeelPopQueue(dom: seq<int>, childCount: seq<int>, done: seq<bool>, pushed: seq<bool>, queue: seq<int>)
    requires QueueState(|dom|, childCount, done, pushed, queue) && |queue| > 0
    requires var d := dom[queue[0]]; d < 0 || (d < |dom| && childCount[d] >= 1 && d != queue[0])
    ensures var d := dom[queue[0]];
            var c := Decremented(dom, childCount, queue[0]);
            var last := d >= 0 && c[d] == 0;
            QueueState(|dom|, c, done[queue[0] := true], if last then pushed[d := true] else pushed,
                       if last then queue[1..] + [d] else queue[1..])
  {
    var N := |dom|;
    var d := dom[queue[0]];
    var leaf := queue[0];
    var done' := done[leaf := true];
    var childCount' := Decremented(dom, childCount, leaf);
    var last := d >= 0 && childCount'[d] == 0;
    var pushed' := if last then pushed[d := true] else pushed;
    var queue' := if last then queue[1..] + [d] else queue[1..];
    forall j, k | 0 <= j < k < |queue'| ensures queue'[j] != queue'[k] {
      if k < |queue| - 1 {
        assert queue'[j] == queue[j + 1] && queue'[k] == queue[k + 1];
      } else {
        assert queue'[k] == d && queue'[j] == queue[j + 1];
      }
    }
    forall k | 0 <= k < |queue'| ensures 0 <= queue'[k] < N && pushed'[queue'[k]] && !done'[queue'[k]] {
      if k < |queue| - 1 {
        assert queue'[k] == queue[k + 1] && queue[k + 1] != leaf;
      }
    }
    forall x | 0 <= x < N && pushed'[x] && !done'[x] ensures x in queue' {
      if x != d {
        assert x in queue && x != leaf;
        var m :| 0 <= m < |queue| && queue[m] == x;
        assert queue'[m - 1] == x;
      } else {
        assert queue'[|queue'| - 1] == d;
      }
    }
  }

  /** With the queue empty, every vertex with a dominator is done, from the deepest upwards. */
  lemma {:induction false} PeelAllDone(dom: seq<int>, pre: seq<int>, sizes: seq<int>, retained: seq<int>, childCount: seq<int>,
                                       done: seq<bool>, pushed: seq<bool>, h: int)
    requires PeelState(dom, pre, sizes, retained, childCount, done, pushed, [])
    ensures forall x :: 0 <= x < |pre| && pre[x] >= h && dom[x] >= 0 ==> done[x]
    decreases |pre| - h
  {
    if h < |pre| {
      PeelAllDone(dom, pre, sizes, retained, childCount, done, pushed, h + 1);
      forall x | 0 <= x < |pre| && pre[x] == h && dom[x] >= 0 ensures done[x] {
        forall c | 0 <= c < |pre| && dom[c] == x ensures done[c] {
          assert pre[c] > pre[x];
        }
        assert childCount[x] == 0 && x != 0;
      }
    }
  }

  lemma PeelFinish(dom: seq<int>, pre: seq<int>, sizes: seq<int>, retained: seq<int>, childCount: seq<int>,
                   done: seq<bool>, pushed: seq<bool>)
    requires PeelState(dom, pre, sizes, retained, childCount, done, pushed, [])
    ensures forall v :: 0 <= v < |pre| ==> retained[v] == Subtree(dom, pre, sizes, v)
    ensures RootSum(retained, dom, |pre|) == Total(sizes, |pre|)
  {
    PeelAllDone(dom, pre, sizes, retained, childCount, done, pushed, 0);
    forall v | 0 <= v < |pre| ensures retained[v] == Subtree(dom, pre, sizes, v) {
      forall c | 0 <= c < |pre| && dom[c] == v ensures done[c] {
      }
      PeelComplete(dom, pre, sizes, retained, childCount, done, v);
    }
    LiveRoots(retained, dom, done, |pre|);
  }

  /**
   * Every vertex starts with its own size; the
   * vertices other than 0 without dominator-tree children are queued; a
   * popped vertex adds its retained size to its dominator, and a dominator
   * whose last child is popped is queued in turn. Afterwards every vertex
   * holds the total size of its dominator subtree, and the roots of the
   * forest together hold the total size of the graph.
   */
  method PeelLeaves(dom: seq<int>, ghost pre: seq<int>, sizes: seq<int>, childCount: seq<int>) returns (retained: seq<int>)
    requires DomForest(dom, pre) && |pre| >= 1 && dom[0] == -1 && |sizes| == |pre|
    requires |childCount| == |pre| && forall v :: 0 <= v < |pre| ==> childCount[v] == Children(dom, v, |pre|)
    ensures |retained| == |pre|
    ensures forall v :: 0 <= v < |pre| ==> retained[v] == Subtree(dom, pre, sizes, v)
    ensures RootSum(retained, dom, |pre|) == Total(sizes, |pre|)
  {
    var n := |sizes|;
    retained := sizes;
    var count := childCount;
    var leaves: seq<int> := [];
    ghost var pushed: seq<bool> := seq(n, _ => false);
    for i := 1 to n
      invariant |pushed| == n
      invariant forall x :: 0 <= x < n ==> pushed[x] == (1 <= x < i && count[x] == 0)
      invariant forall k :: 0 <= k < |leaves| ==> 1 <= leaves[k] < i && pushed[leaves[k]]
      invariant forall j, k :: 0 <= j < k < |leaves| ==> leaves[j] < leaves[k]
      invariant forall x :: 0 <= x < n && pushed[x] ==> x in leaves
    {
      if count[i] == 0 {
        leaves := leaves + [i];
        pushed := pushed[i := true];
      }
    }
    ghost var done: seq<bool> := seq(n, _ => false);
    PeelStart(dom, pre, sizes, count, done, pushed, leaves);
    while leaves != []
      invariant PeelState(dom, pre, sizes, retained, count, done, pushed, leaves)
      decreases NotDone(done, n)
    {
      PeelPop(dom, pre, sizes, retained, count, done, pushed, leaves);
      var leaf := leaves[0];
      leaves := leaves[1..];
      var d := dom[leaf];
      retained := Absorbed(dom, retained, leaf);
      count := Decremented(dom, count, leaf);
      if d >= 0 && count[d] == 0 {
        leaves := leaves + [d];
        pushed := pushed[d := true];
      }
      done := done[leaf := true];
    }
    PeelFinish(dom, pre, sizes, retained, count, done, pushed);
  }

  /**
   * The retained size of every vertex of a graph whose
   * vertices are all reachable from vertex 0. Vertices are numbered in
   * depth-first preorder, the semi-dominator pass and the fix-up give every
   * vertex but 0 a dominator numbered before it, and leaf peeling adds up
   * the sizes over that forest: every vertex gets its own size plus the
   * sizes of the vertices below it, and the roots together hold the total.
   */
  method CalculateRetainedSizesViaDominatorTree(graph: seq<seq<int>>, sizes: seq<int>)
    returns (retained: seq<int>, ghost dom: seq<int>, ghost pre: seq<int>)
    requires IsGraph(graph) && |graph| >= 1 && AllReachable(graph) && |sizes| == |graph|
    ensures |retained| == |dom| == |pre| == |graph| && DomForest(dom, pre) && dom[0] == -1 && pre[0] == 0
    ensures forall v :: 0 <= v < |graph| ==> retained[v] == Subtree(dom, pre, sizes, v)
    ensures RootSum(retained, dom, |graph|) == Total(sizes, |graph|)
    ensures (forall x :: 0 <= x < |sizes| ==> sizes[x] >= 0) ==> forall v :: 0 <= v < |graph| ==> retained[v] >= sizes[v]
  {
    var n := |graph|;
    var ancestor := seq(n, _ => -1);
    var labels := seq(n, i => i);
    var count, semi, parent, vertex, pred := Number(graph);
    PreorderRanks(graph, semi, parent, vertex, pred);
    pre := semi;
    var lowered, guess := SemiDominators(graph, n, semi, parent, vertex, pred, ancestor, labels);
    var idom, childCount := ImmediateDominators(n, semi, vertex, lowered, guess);
    dom := idom;
    retained := PeelLeaves(idom, semi, sizes, childCount);
    if forall x :: 0 <= x < |sizes| ==> sizes[x] >= 0 {
      forall v | 0 <= v < n ensures retained[v] >= sizes[v] {
        SubtreeAtLeast(dom, pre, sizes, v);
      }
    }
  }
}
