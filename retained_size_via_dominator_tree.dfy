/**
 * The retained-size action that goes through a dominator tree of the whole
 * heap: `dumpHeapGraph` turns every object JVMTI reaches into a vertex
 * (vertex 0 is a super-root with an edge to every heap root), the
 * Lengauer–Tarjan pass computes dominators, and every vertex adds its size
 * to each vertex on its chain of dominators.
 */
module RetainedSizeViaDominatorTree {
  import opened Jvmti
  import opened DominatorForest
  import opened DominatorTree

  /** The sizes of the vertices numbered `1..i-1` that `v` lies above, over the vertices below `k`. */
  ghost function Walked(dom: seq<int>, pre: seq<int>, sizes: seq<int>, v: int, i: int, k: int): int
    requires DomForest(dom, pre) && |sizes| == |pre| && 0 <= k <= |pre|
  {
    if k == 0 then 0
    else Walked(dom, pre, sizes, v, i, k - 1) + (if 1 <= pre[k - 1] < i && Above(dom, pre, v, k - 1) then sizes[k - 1] else 0)
  }

  lemma {:induction false} WalkedNone(dom: seq<int>, pre: seq<int>, sizes: seq<int>, v: int, k: int)
    requires DomForest(dom, pre) && |sizes| == |pre| && 0 <= k <= |pre|
    ensures Walked(dom, pre, sizes, v, 1, k) == 0
  {
    if k > 0 {
      WalkedNone(dom, pre, sizes, v, k - 1);
    }
  }

  /** Whether `v` lies above `x` depends only on the dominators of vertices numbered no later than `x`. */
  lemma {:induction false} AboveFrame(dom: seq<int>, dom': seq<int>, pre: seq<int>, v: int, x: int, i: int)
    requires DomForest(dom, pre) && DomForest(dom', pre) && 0 <= x < |pre| && pre[x] < i
    requires forall y :: 0 <= y < |pre| && pre[y] < i ==> dom'[y] == dom[y]
    ensures Above(dom', pre, v, x) == Above(dom, pre, v, x)
    decreases pre[x]
  {
    if dom[x] != -1 && dom[x] != v {
      AboveFrame(dom, dom', pre, v, dom[x], i);
    }
  }

  lemma {:induction false} WalkedFrame(dom: seq<int>, dom': seq<int>, pre: seq<int>, sizes: seq<int>, v: int, i: int, k: int)
    requires DomForest(dom, pre) && DomForest(dom', pre) && |sizes| == |pre| && 0 <= k <= |pre|
    requires forall y :: 0 <= y < |pre| && pre[y] < i ==> dom'[y] == dom[y]
    ensures Walked(dom', pre, sizes, v, i, k) == Walked(dom, pre, sizes, v, i, k)
  {
    if k > 0 {
      WalkedFrame(dom, dom', pre, sizes, v, i, k - 1);
      if pre[k - 1] < i {
        AboveFrame(dom, dom', pre, v, k - 1, i);
      }
    }
  }

  /** Taking in the vertex numbered `i`. */
  lemma {:induction false} WalkedStep(dom: seq<int>, pre: seq<int>, sizes: seq<int>, v: int, i: int, k: int, w: int)
    requires DomForest(dom, pre) && Ranks(pre) && |sizes| == |pre| && 0 <= k <= |pre|
    requires 0 <= w < |pre| && pre[w] == i >= 1
    ensures Walked(dom, pre, sizes, v, i + 1, k) == Walked(dom, pre, sizes, v, i, k) + (if w < k && Above(dom, pre, v, w) then sizes[w] else 0)
  {
    if k > 0 {
      WalkedStep(dom, pre, sizes, v, i, k - 1, w);
    }
  }

  /** Once every number is taken in, the walked sizes are those of all proper descendants. */
  lemma {:induction false} WalkedAll(dom: seq<int>, pre: seq<int>, sizes: seq<int>, v: int, k: int)
    requires DomForest(dom, pre) && |sizes| == |pre| && 0 <= k <= |pre|
    requires forall x :: 0 <= x < |pre| && pre[x] == 0 ==> dom[x] == -1
    ensures Walked(dom, pre, sizes, v, |pre|, k) == ChainSum(dom, pre, sizes, v, k)
  {
    if k > 0 {
      WalkedAll(dom, pre, sizes, v, k - 1);
    }
  }

  /**
   * Partway up the dominator chain above `w`, at `temp` (-1 past the top):
   * every vertex above `w` and below `temp` has had `sizes[w]` added to its
   * entry of `r0`, and no other vertex has.
   */
  ghost predicate Climbing(dom: seq<int>, pre: seq<int>, sizes: seq<int>, r0: seq<int>, retained: seq<int>, w: int, temp: int)
    requires DomForest(dom, pre) && |sizes| == |r0| == |pre| && 0 <= w < |pre|
  {
    && |retained| == |pre|
    && (temp == -1 || (0 <= temp < |pre| && Above(dom, pre, temp, w)))
    && forall v :: 0 <= v < |pre| ==>
         retained[v] == r0[v] + (if Above(dom, pre, v, w) && !(temp != -1 && (v == temp || Above(dom, pre, v, temp))) then sizes[w] else 0)
  }

  lemma ClimbStart(dom: seq<int>, pre: seq<int>, sizes: seq<int>, r0: seq<int>, w: int)
    requires DomForest(dom, pre) && |sizes| == |r0| == |pre| && 0 <= w < |pre|
    ensures Climbing(dom, pre, sizes, r0, r0, w, dom[w])
  {
  }

  /** Adding `sizes[w]` at `temp` and moving on to its dominator. */
  lemma ClimbStep(dom: seq<int>, pre: seq<int>, sizes: seq<int>, r0: seq<int>, retained: seq<int>, w: int, temp: int)
    requires DomForest(dom, pre) && |sizes| == |r0| == |pre| && 0 <= w < |pre|
    requires Climbing(dom, pre, sizes, r0, retained, w, temp) && temp != -1
    ensures Climbing(dom, pre, sizes, r0, retained[temp := retained[temp] + sizes[w]], w, dom[temp])
  {
    AboveEarlier(dom, pre, temp, temp);
    var r := retained[temp := retained[temp] + sizes[w]];
    var t := dom[temp];
    forall v | 0 <= v < |pre|
      ensures r[v] == r0[v] + (if Above(dom, pre, v, w) && !(t != -1 && (v == t || Above(dom, pre, v, t))) then sizes[w] else 0)
    {
      assert Above(dom, pre, v, temp) <==> t != -1 && (v == t || Above(dom, pre, v, t));
    }
    if t != -1 {
      AboveThrough(dom, pre, temp, w);
    }
  }

  /**
   * `sizes[w]` is added to every vertex on the chain of
   * dominators above `w`, and to no other vertex.
   */
  method AddToChain(dom: seq<int>, ghost pre: seq<int>, sizes: seq<int>, retained: seq<int>, w: int) returns (retained': seq<int>)
    requires DomForest(dom, pre) && |sizes| == |retained| == |pre| && 0 <= w < |pre|
    ensures |retained'| == |pre|
    ensures forall v :: 0 <= v < |pre| ==> retained'[v] == retained[v] + (if Above(dom, pre, v, w) then sizes[w] else 0)
  {
    retained' := retained;
    var temp := dom[w];
    ClimbStart(dom, pre, sizes, retained, w);
    while temp != -1
      invariant Climbing(dom, pre, sizes, retained, retained', w, temp)
      decreases if temp == -1 then 0 else pre[temp] + 1
    {
      ClimbStep(dom, pre, sizes, retained, retained', w, temp);
      retained' := retained'[temp := retained'[temp] + sizes[w]];
      temp := dom[temp];
    }
  }

  /** What the fix-up of the dominators, with chain walking, keeps before number `i`. */
  ghost predicate ChainState(n: int, pre: seq<int>, vertex: seq<int>, semi: seq<int>, dom: seq<int>,
                             sizes: seq<int>, dom': seq<int>, retained: seq<int>, i: int)
    requires IdomInputs(n, pre, vertex, semi, dom)
  {
    && IdomDoms(n, pre, vertex, semi, dom, dom', i) && DomForest(dom', pre)
    && |sizes| == |retained| == n
    && forall v :: 0 <= v < n ==> retained[v] == sizes[v] + Walked(dom', pre, sizes, v, i, n)
  }

  lemma ChainStart(n: int, pre: seq<int>, vertex: seq<int>, semi: seq<int>, dom: seq<int>, sizes: seq<int>)
    requires IdomInputs(n, pre, vertex, semi, dom) && |sizes| == n
    ensures ChainState(n, pre, vertex, semi, dom, sizes, dom[0 := -1], sizes, 1)
  {
    var d := dom[0 := -1];
    assert IdomDoms(n, pre, vertex, semi, dom, d, 1);
    forall v | 0 <= v < n ensures Walked(d, pre, sizes, v, 1, n) == 0 {
      WalkedNone(d, pre, sizes, v, n);
    }
  }

  /** Fixing the dominator of the vertex numbered `i` changes nothing already walked. */
  lemma ChainFix(n: int, pre: seq<int>, vertex: seq<int>, semi: seq<int>, dom: seq<int>, sizes: seq<int>,
                 d0: seq<int>, retained: seq<int>, i: int, dom': seq<int>)
    requires IdomInputs(n, pre, vertex, semi, dom) && 1 <= i < n
    requires ChainState(n, pre, vertex, semi, dom, sizes, d0, retained, i)
    requires 0 <= vertex[i] < n && 0 <= semi[vertex[i]] < n && |d0| == n && 0 <= d0[vertex[i]] < n
    requires dom' == if d0[vertex[i]] == vertex[semi[vertex[i]]] then d0 else d0[vertex[i] := d0[d0[vertex[i]]]]
    ensures IdomDoms(n, pre, vertex, semi, dom, dom', i + 1) && DomForest(dom', pre)
    ensures forall v :: 0 <= v < n ==> retained[v] == sizes[v] + Walked(dom', pre, sizes, v, i, n)
  {
    var w := vertex[i];
    assert IdomDoms(n, pre, vertex, semi, dom, dom', i + 1) && dom' == d0[w := dom'[w]] && DomForest(dom', pre) by {
      IdomStepDoms(n, pre, vertex, semi, dom, d0, i, dom');
    }
    assert DomForest(d0, pre) && |sizes| == |pre|;
    assert forall y :: 0 <= y < |pre| && pre[y] < i ==> dom'[y] == d0[y] by {
      assert pre[w] == i;
    }
    forall v | 0 <= v < n ensures Walked(dom', pre, sizes, v, i, n) == Walked(d0, pre, sizes, v, i, n) {
      WalkedFrame(d0, dom', pre, sizes, v, i, n);
    }
  }

  /** After the walk above the vertex `w` numbered `i`, it counts as walked. */
  lemma ChainAdd(n: int, dom: seq<int>, pre: seq<int>, sizes: seq<int>, r0: seq<int>, retained: seq<int>, i: int, w: int)
    requires DomForest(dom, pre) && Ranks(pre) && n == |pre| && |sizes| == |r0| == |retained| == n
    requires 0 <= w < n && pre[w] == i >= 1
    requires forall v :: 0 <= v < n ==> r0[v] == sizes[v] + Walked(dom, pre, sizes, v, i, n)
    requires forall v :: 0 <= v < n ==> retained[v] == r0[v] + (if Above(dom, pre, v, w) then sizes[w] else 0)
    ensures forall v :: 0 <= v < n ==> retained[v] == sizes[v] + Walked(dom, pre, sizes, v, i + 1, n)
  {
    forall v | 0 <= v < n ensures retained[v] == sizes[v] + Walked(dom, pre, sizes, v, i + 1, n) {
      WalkedStep(dom, pre, sizes, v, i, n, w);
    }
  }

  /**
   * The root's dominator becomes -1; in increasing preorder,
   * a vertex whose guess is not the vertex its `semi` names takes over the
   * dominator of its guess, and then its size is added to every vertex on
   * its chain of dominators (`AddToChain`). Every vertex ends up with its
   * own size plus the sizes of all the vertices it lies above.
   */
  method AccumulateChains(n: int, pre: seq<int>, vertex: seq<int>, semi: seq<int>, dom: seq<int>, sizes: seq<int>)
    returns (dom': seq<int>, retained: seq<int>)
    requires IdomInputs(n, pre, vertex, semi, dom) && |sizes| == n
    ensures DomForest(dom', pre) && dom'[0] == -1
    ensures forall x {:trigger Fixed(vertex, semi, dom, dom', x)} :: 0 < x < n ==> Fixed(vertex, semi, dom, dom', x)
    ensures |retained| == n && forall v :: 0 <= v < n ==> retained[v] == sizes[v] + ChainSum(dom', pre, sizes, v, n)
  {
    dom' := dom[0 := -1];
    retained := sizes;
    ChainStart(n, pre, vertex, semi, dom, sizes);
    for i := 1 to n
      invariant ChainState(n, pre, vertex, semi, dom, sizes, dom', retained, i)
    {
      var w := vertex[i];
      ghost var d0 := dom';
      if dom'[w] != vertex[semi[w]] {
        dom' := dom'[w := dom'[dom'[w]]];
      }
      ChainFix(n, pre, vertex, semi, dom, sizes, d0, retained, i, dom');
      ghost var r0 := retained;
      retained := AddToChain(dom', pre, sizes, retained, w);
      ChainAdd(n, dom', pre, sizes, r0, retained, i, w);
    }
    forall v | 0 <= v < n ensures retained[v] == sizes[v] + ChainSum(dom', pre, sizes, v, n) {
      WalkedAll(dom', pre, sizes, v, n);
    }
  }

  /**
   * The forest as `compress` and `eval` keep it: `ancestor` starts zeroed and
   * 0 stands for "no ancestor", although 0 is also the super-root that the
   * heap roots are linked to. The super-root itself is never linked.
   */
  ghost predicate Forest0(ancestor: seq<int>, labels: seq<int>, pre: seq<int>) {
    && Ranks(pre) && |pre| >= 1 && |ancestor| == |pre| && |labels| == |pre| && ancestor[0] == 0
    && (forall x :: 0 <= x < |pre| ==> 0 <= ancestor[x] < |pre| && (ancestor[x] == 0 || pre[ancestor[x]] < pre[x]))
    && (forall x :: 0 <= x < |pre| ==> 0 <= labels[x] < |pre|)
  }

  /** `compress` as written: stops where the ancestor's ancestor is 0. */
  function Compress0(v: int, ancestor: seq<int>, labels: seq<int>, semi: seq<int>, ghost pre: seq<int>): (r: (seq<int>, seq<int>))
    requires Forest0(ancestor, labels, pre) && |semi| == |pre| && 0 <= v < |pre|
    decreases pre[v]
    ensures Forest0(r.0, r.1, pre)
    ensures ancestor[ancestor[v]] == 0 ==> r == (ancestor, labels)
  {
    if ancestor[ancestor[v]] != 0 then
      var c := Compress0(ancestor[v], ancestor, labels, semi, pre);
      var anc1, lab1 := c.0, c.1;
      var lab2 := if semi[lab1[anc1[v]]] < semi[lab1[v]] then lab1[v := lab1[anc1[v]]] else lab1;
      (anc1[v := anc1[anc1[v]]], lab2)
    else
      (ancestor, labels)
  }

  /** `eval` as written: a vertex whose ancestor is 0 is its own answer. */
  function Eval0(v: int, ancestor: seq<int>, labels: seq<int>, semi: seq<int>, ghost pre: seq<int>): (r: (int, seq<int>, seq<int>))
    requires Forest0(ancestor, labels, pre) && |semi| == |pre| && 0 <= v < |pre|
    ensures 0 <= r.0 < |pre| && Forest0(r.1, r.2, pre)
    ensures ancestor[v] == 0 ==> r.0 == v
  {
    if ancestor[v] == 0 then (v, ancestor, labels)
    else
      var c := Compress0(v, ancestor, labels, semi, pre);
      (c.1[v], c.0, c.1)
  }

  /**
   * The graph 0 -> 1, 0 -> 3, 1 -> 2, 3 -> 4, 4 -> 2 is numbered in order by
   * the depth-first search. Before number 2 is handled, 4 and then 3 have
   * been linked to their parents: linking 3 to the super-root writes the 0
   * that was already there, so as written 3 looks like a tree root. The two
   * lemmas below state what `eval(4)` answers then: 4 (semi 3) as written,
   * while on the forest path 4, 3 the least semi is 0, at vertex 3, which is
   * what `eval` with -1 for "no ancestor" finds. Traced by hand further, and
   * stated by no lemma: the pass would then give vertex 2 the
   * semi-dominator 1 and the immediate dominator 1 instead of 0.
   */
  lemma SentinelLosesRootLink()
    ensures Link(0, 3, [0, 0, 0, 0, 3]) == [0, 0, 0, 0, 3]
  {
  }

  lemma SentinelEval()
    ensures Forest0([0, 0, 0, 0, 3], [0, 1, 2, 3, 4], [0, 1, 2, 3, 4])
    ensures Eval0(4, [0, 0, 0, 0, 3], [0, 1, 2, 3, 4], [0, 1, 2, 0, 3], [0, 1, 2, 3, 4]).0 == 4
  {
    var a0, ids, semi := [0, 0, 0, 0, 3], [0, 1, 2, 3, 4], [0, 1, 2, 0, 3];
    assert Forest0(a0, ids, ids) by {
      IdentityRanks();
    }
    assert Compress0(4, a0, ids, semi, ids) == (a0, ids);
  }

  lemma CorrectedPathMin()
    ensures Forest([-1, -1, -1, 0, 3], [0, 1, 2, 3, 4], [0, 1, 2, 3, 4])
    ensures PathMin([-1, -1, -1, 0, 3], [0, 1, 2, 3, 4], [0, 1, 2, 0, 3], [0, 1, 2, 3, 4], 4) == 0
  {
    var a, ids, semi := [-1, -1, -1, 0, 3], [0, 1, 2, 3, 4], [0, 1, 2, 0, 3];
    assert Forest(a, ids, ids) by {
      IdentityRanks();
    }
    assert PathMin(a, ids, semi, ids, 3) == 0;
  }

  lemma IdentityRanks()
    ensures Ranks([0, 1, 2, 3, 4])
  {
    var pre := [0, 1, 2, 3, 4];
    forall x, y | 0 <= x < 5 && 0 <= y < 5 && pre[x] == pre[y] ensures x == y {
      assert pre[x] == x && pre[y] == y;
    }
  }

  /**
   * `calculateRetainedSizes`, corrected: the forest's "no ancestor" is
   * written as -1 where the source writes 0. Every vertex gets its own size
   * plus the sizes of the vertices it lies above in the forest `dom`, which
   * is the subtree sum the leaf-peeling calculator computes over the same
   * forest. That `dom` is the immediate-dominator tree is not proved.
   */
  method CalculateRetainedSizes(graph: seq<seq<int>>, sizes: seq<int>)
    returns (retained: seq<int>, ghost dom: seq<int>, ghost pre: seq<int>)
    requires IsGraph(graph) && |graph| >= 1 && AllReachable(graph) && |sizes| == |graph|
    ensures |retained| == |dom| == |pre| == |graph| && DomForest(dom, pre) && dom[0] == -1 && pre[0] == 0
    ensures forall v :: 0 <= v < |graph| ==> retained[v] == sizes[v] + ChainSum(dom, pre, sizes, v, |graph|)
    ensures forall v :: 0 <= v < |graph| ==> retained[v] == Subtree(dom, pre, sizes, v)
  {
    var n := |graph|;
    var ancestor := seq(n, _ => -1);
    var labels := seq(n, i => i);
    var count, semi, parent, vertex, pred := Number(graph);
    PreorderRanks(graph, semi, parent, vertex, pred);
    pre := semi;
    var lowered, guess := SemiDominators(graph, n, semi, parent, vertex, pred, ancestor, labels);
    var idom;
    idom, retained := AccumulateChains(n, semi, vertex, lowered, guess, sizes);
    dom := idom;
    forall v | 0 <= v < n ensures retained[v] == Subtree(dom, pre, sizes, v) {
      SubtreeChain(dom, pre, sizes, v);
    }
  }

  /** The fields of `HeapDumpInfo`: the graph (vertex 0 the super-root), the sizes, the root tags and the next tag. */
  datatype DumpInfo = DumpInfo(graph: seq<seq<int>>, sizes: seq<int>, roots: seq<int>, tag: int)

  /** Every tag given out so far is a vertex with a size, and every edge and root names one of them. */
  ghost predicate WellFormed(d: DumpInfo) {
    && 1 <= d.tag && |d.graph| == |d.sizes| == d.tag
    && (forall v, j :: 0 <= v < |d.graph| && 0 <= j < |d.graph[v]| ==> 1 <= d.graph[v][j] < d.tag)
    && (forall j :: 0 <= j < |d.roots| ==> 1 <= d.roots[j] < d.tag)
  }

  /** The graph once the roots are edges out of the super-root. */
  function Rooted(d: DumpInfo): seq<seq<int>>
    requires |d.graph| >= 1
  {
    d.graph[0 := d.graph[0] + d.roots]
  }

  /** Every vertex is reached from the super-root along no more edges than its own number. */
  ghost predicate FromRoots(d: DumpInfo)
    requires |d.graph| >= 1
  {
    forall x :: 0 <= x < |d.graph| ==> x in ReachWithin(Rooted(d), x)
  }

  /** Every edge of `g1` is an edge of `g2`. */
  ghost predicate SubGraph(g1: seq<seq<int>>, g2: seq<seq<int>>) {
    |g1| <= |g2| && forall v, j :: 0 <= v < |g1| && 0 <= j < |g1[v]| ==> g1[v][j] in g2[v]
  }

  lemma {:induction false} ReachGrows(g1: seq<seq<int>>, g2: seq<seq<int>>, k: nat)
    requires SubGraph(g1, g2)
    ensures ReachWithin(g1, k) <= ReachWithin(g2, k)
  {
    if k > 0 {
      ReachGrows(g1, g2, k - 1);
      var s1, s2 := ReachWithin(g1, k - 1), ReachWithin(g2, k - 1);
      forall y | y in Step(g1, s1) ensures y in Step(g2, s2) {
        if y !in s1 {
          var v, j :| 0 <= v < |g1| && v in s1 && 0 <= j < |g1[v]| && g1[v][j] == y;
          var j' :| 0 <= j' < |g2[v]| && g2[v][j'] == y;
          assert g2[v][j'] in Step(g2, s2);
        }
      }
    }
  }

  lemma {:induction false} ReachMore(g: seq<seq<int>>, k: nat, k': nat)
    requires k <= k'
    ensures ReachWithin(g, k) <= ReachWithin(g, k')
    decreases k' - k
  {
    if k < k' {
      ReachMore(g, k, k' - 1);
    }
  }

  lemma ReachEdge(g: seq<seq<int>>, k: nat, x: int, y: int)
    requires x in ReachWithin(g, k) && 0 <= x < |g| && y in g[x]
    ensures y in ReachWithin(g, k + 1)
  {
    var j :| 0 <= j < |g[x]| && g[x][j] == y;
    assert g[x][j] in Step(g, ReachWithin(g, k));
  }

  /** A vertex with an edge from a vertex reached within its own number is reached within its own number. */
  lemma ReachNew(g: seq<seq<int>>, src: int, t: int)
    requires 0 <= src < t && src < |g| && src in ReachWithin(g, src) && t in g[src]
    ensures t in ReachWithin(g, t)
  {
    ReachEdge(g, src, src, t);
    ReachMore(g, src + 1, t);
  }

  /**
   * `dumpHeapGraph` on an object whose tag is `t` and whose referrer has
   * the tag `referrer` (`None` for a null referrer pointer: a heap root).
   */
  function Dumped(d: DumpInfo, t: int, referrer: Option<int>, size: int): (r: (DumpInfo, int))
    requires |d.graph| >= 1 && (referrer.Some? ==> 0 <= referrer.value < |d.graph|)
    ensures t != 0 ==> r.1 == t && r.0.tag == d.tag && |r.0.graph| == |d.graph| && r.0.sizes == d.sizes
    ensures t == 0 ==> r.1 == d.tag && r.0.tag == d.tag + 1 && |r.0.graph| == |d.graph| + 1 && r.0.sizes == d.sizes + [size]
    ensures t == 0 ==> r.0.graph[|d.graph|] == []
    ensures SubGraph(d.graph, r.0.graph) && SubGraph(Rooted(d), Rooted(r.0))
    ensures referrer.None? ==> r.0.roots == d.roots + [r.1]
    ensures referrer.Some? ==> r.0.roots == d.roots && r.1 in r.0.graph[referrer.value]
    ensures forall v :: 0 <= v < |d.graph| && (referrer.None? || v != referrer.value) ==> r.0.graph[v] == d.graph[v]
  {
    var (d1, t') := if t == 0 then (d.(sizes := d.sizes + [size], graph := d.graph + [[]], tag := d.tag + 1), d.tag) else (d, t);
    if referrer.None? then (d1.(roots := d1.roots + [t']), t')
    else (d1.(graph := d1.graph[referrer.value := d1.graph[referrer.value] + [t']]), t')
  }

  /** A new tag is the next free one, and it is reached through its referrer or as a root. */
  lemma DumpedKeeps(d: DumpInfo, t: int, referrer: Option<int>, size: int)
    requires WellFormed(d) && FromRoots(d) && 0 <= t < d.tag
    requires referrer.Some? ==> 1 <= referrer.value < d.tag
    ensures WellFormed(Dumped(d, t, referrer, size).0) && FromRoots(Dumped(d, t, referrer, size).0)
    ensures 1 <= Dumped(d, t, referrer, size).1 < Dumped(d, t, referrer, size).0.tag
  {
    var r := Dumped(d, t, referrer, size);
    var d', t' := r.0, r.1;
    var g, g' := Rooted(d), Rooted(d');
    forall x | 0 <= x < |d.graph| ensures x in ReachWithin(g', x) {
      ReachGrows(g, g', x);
    }
    if t == 0 {
      var src := if referrer.None? then 0 else referrer.value;
      assert src in ReachWithin(g', src);
      assert t' in g'[src];
      ReachNew(g', src, t');
    }
    forall x | 0 <= x < |d'.graph| ensures x in ReachWithin(g', x) {
      if x >= |d.graph| {
        assert x == t';
      }
    }
    forall v, j | 0 <= v < |d'.graph| && 0 <= j < |d'.graph[v]| ensures 1 <= d'.graph[v][j] < d'.tag {
      if v < |d.graph| && referrer.Some? && v == referrer.value && j == |d'.graph[v]| - 1 {
      } else if v < |d.graph| {
        assert d'.graph[v][j] in d.graph[v];
      }
    }
  }

  /** With every vertex reached in the dump, the rooted graph fits the dominator calculation. */
  lemma RootedReachable(d: DumpInfo)
    requires WellFormed(d) && FromRoots(d)
    ensures IsGraph(Rooted(d)) && |Rooted(d)| >= 1 && AllReachable(Rooted(d))
  {
    var g := Rooted(d);
    forall x | 0 <= x < |g| ensures x in ReachWithin(g, |g|) {
      ReachMore(g, x, |g|);
    }
    forall v, j | 0 <= v < |g| && 0 <= j < |g[v]| ensures 0 <= g[v][j] < |g| {
      if v == 0 && j >= |d.graph[0]| {
        assert g[v][j] == d.roots[j - |d.graph[0]|];
      }
    }
  }

  /** `HeapDumpInfo`, the user data of `dumpHeapGraph`. */
  class HeapDumpInfo {
    var graph: seq<seq<int>>
    var sizes: seq<int>
    var roots: seq<int>
    var tag: int

    function Info(): DumpInfo
      reads this
    {
      DumpInfo(graph, sizes, roots, tag)
    }

    /** The super-root alone, of size 0, and tag 1 to give out next. */
    constructor()
      ensures Info() == DumpInfo([[]], [0], [], 1)
    {
      graph := [[]];
      sizes := [0];
      roots := [];
      tag := 1;
    }

    /**
     * `dumpHeapGraph` with `t` the tag behind `tagPtr`;
     * returns the tag left there and always lets JVMTI visit the referee's
     * references.
     */
    method DumpHeapGraph(t: int, referrer: Option<int>, size: int) returns (t': int, v: Visit)
      requires |graph| >= 1 && (referrer.Some? ==> 0 <= referrer.value < |graph|)
      modifies this
      ensures v == VisitObjects && (Info(), t') == Dumped(old(Info()), t, referrer, size)
    {
      t' := t;
      if t' == 0 {
        t' := tag;
        sizes := sizes + [size];
        graph := graph + [[]];
        tag := tag + 1;
      }
      if referrer.None? {
        roots := roots + [t'];
      } else {
        graph := graph[referrer.value := graph[referrer.value] + [t']];
      }
      v := VisitObjects;
    }

    /** Every root becomes an edge out of the super-root. */
    method AddRootEdges()
      requires |graph| >= 1
      modifies this
      ensures graph == Rooted(old(Info())) && sizes == old(sizes) && roots == old(roots) && tag == old(tag)
    {
      ghost var g0 := graph;
      assert g0[0] + roots[..0] == g0[0];
      for j := 0 to |roots|
        invariant roots == old(roots) && sizes == old(sizes) && tag == old(tag)
        invariant graph == g0[0 := g0[0] + roots[..j]]
      {
        assert roots[..j + 1] == roots[..j] + [roots[j]];
        assert g0[0] + roots[..j + 1] == (g0[0] + roots[..j]) + [roots[j]];
        graph := graph[0 := graph[0] + [roots[j]]];
      }
      assert roots[..|roots|] == roots;
    }
  }

  /** The tag JVMTI holds for `o`: 0 for an untagged object. */
  function TagOf(slots: map<ObjId, int>, o: ObjId): int {
    if o in slots then slots[o] else 0
  }

  /** The tag behind `referrerTagPtr`, `None` for a heap root. */
  function ReferrerTag(slots: map<ObjId, int>, e: Edge): Option<int> {
    if e.referrer.Some? then Some(TagOf(slots, e.referrer.value)) else None
  }

  /** FollowReferences reports the references of an object only after a reference to it. */
  ghost predicate ReferrersFirst(edges: seq<Edge>) {
    forall i :: 0 <= i < |edges| && edges[i].referrer.Some? ==>
      exists j :: 0 <= j < i && edges[j].referee == edges[i].referrer.value
  }

  /** Every tagged object's vertex exists and has the object's size, and no size is negative. */
  ghost predicate TagsSized(d: DumpInfo, slots: map<ObjId, int>, sizeOf: ObjId -> nat) {
    && (forall o :: o in slots ==> 1 <= slots[o] < d.tag && 0 <= slots[o] < |d.sizes| && d.sizes[slots[o]] == sizeOf(o))
    && (forall x :: 0 <= x < |d.sizes| ==> d.sizes[x] >= 0)
  }

  /** Every referee of `edges[..i]` is tagged, and every such reference is a root or an edge. */
  ghost predicate RefsRecorded(d: DumpInfo, slots: map<ObjId, int>, edges: seq<Edge>, i: int)
    requires 0 <= i <= |edges|
  {
    && (forall j :: 0 <= j < i ==> edges[j].referee in slots)
    && (forall j :: 0 <= j < i && edges[j].referrer.None? ==> slots[edges[j].referee] in d.roots)
    && (forall j :: 0 <= j < i && edges[j].referrer.Some? ==>
          edges[j].referrer.value in slots && 0 <= slots[edges[j].referrer.value] < |d.graph| &&
          slots[edges[j].referee] in d.graph[slots[edges[j].referrer.value]])
  }

  /**
   * After the references `edges[..i]`: the dump is well formed and reached
   * from the super-root, every tagged object's vertex has its size, every
   * referee is tagged, and every reference is a root or an edge.
   */
  ghost predicate DumpState(d: DumpInfo, slots: map<ObjId, int>, edges: seq<Edge>, sizeOf: ObjId -> nat, i: int) {
    && 0 <= i <= |edges| && WellFormed(d) && FromRoots(d)
    && TagsSized(d, slots, sizeOf) && RefsRecorded(d, slots, edges, i)
  }

  lemma DumpStart(edges: seq<Edge>, sizeOf: ObjId -> nat)
    ensures DumpState(DumpInfo([[]], [0], [], 1), map[], edges, sizeOf, 0)
  {
  }

  /** The tag `dumpHeapGraph` leaves on the referee keeps every tag and size in place. */
  lemma TagsStep(d: DumpInfo, slots: map<ObjId, int>, sizeOf: ObjId -> nat, o: ObjId, referrer: Option<int>)
    requires WellFormed(d) && TagsSized(d, slots, sizeOf) && (referrer.Some? ==> 0 <= referrer.value < |d.graph|)
    ensures var r := Dumped(d, TagOf(slots, o), referrer, sizeOf(o));
            && TagsSized(r.0, slots[o := r.1], sizeOf)
            && forall p :: p in slots ==> slots[o := r.1][p] == slots[p]
  {
  }

  /** References recorded before stay recorded when the dump only grows; the new one is recorded too. */
  lemma RefsStep(d: DumpInfo, d': DumpInfo, slots: map<ObjId, int>, slots': map<ObjId, int>, edges: seq<Edge>, i: int)
    requires 0 <= i < |edges| && RefsRecorded(d, slots, edges, i)
    requires SubGraph(d.graph, d'.graph) && d.roots <= d'.roots
    requires forall p :: p in slots ==> p in slots' && slots'[p] == slots[p]
    requires edges[i].referee in slots'
    requires edges[i].referrer.None? ==> slots'[edges[i].referee] in d'.roots
    requires edges[i].referrer.Some? ==>
               edges[i].referrer.value in slots' && 0 <= slots'[edges[i].referrer.value] < |d'.graph| &&
               slots'[edges[i].referee] in d'.graph[slots'[edges[i].referrer.value]]
    ensures RefsRecorded(d', slots', edges, i + 1)
  {
    forall j | 0 <= j < i && edges[j].referrer.None? ensures slots'[edges[j].referee] in d'.roots {
      var b := slots[edges[j].referee];
      var k :| 0 <= k < |d.roots| && d.roots[k] == b;
      assert d'.roots[k] == b;
    }
    forall j | 0 <= j < i && edges[j].referrer.Some?
      ensures 0 <= slots'[edges[j].referrer.value] < |d'.graph| && slots'[edges[j].referee] in d'.graph[slots'[edges[j].referrer.value]]
    {
      var a, b := slots[edges[j].referrer.value], slots[edges[j].referee];
      var k :| 0 <= k < |d.graph[a]| && d.graph[a][k] == b;
      assert d.graph[a][k] in d'.graph[a];
    }
  }

  /** One more reference through `dumpHeapGraph`. */
  lemma DumpStep(d: DumpInfo, slots: map<ObjId, int>, edges: seq<Edge>, sizeOf: ObjId -> nat, i: int)
    requires DumpState(d, slots, edges, sizeOf, i) && i < |edges| && ReferrersFirst(edges)
    ensures ReferrerTag(slots, edges[i]).Some? ==> 1 <= ReferrerTag(slots, edges[i]).value < d.tag
    ensures var r := Dumped(d, TagOf(slots, edges[i].referee), ReferrerTag(slots, edges[i]), sizeOf(edges[i].referee));
            DumpState(r.0, slots[edges[i].referee := r.1], edges, sizeOf, i + 1)
  {
    var e := edges[i];
    if e.referrer.Some? {
      var j :| 0 <= j < i && edges[j].referee == e.referrer.value;
    }
    var t := TagOf(slots, e.referee);
    var referrer := ReferrerTag(slots, e);
    var r := Dumped(d, t, referrer, sizeOf(e.referee));
    DumpedKeeps(d, t, referrer, sizeOf(e.referee));
    TagsStep(d, slots, sizeOf, e.referee, referrer);
    RefsStep(d, r.0, slots, slots[e.referee := r.1], edges, i);
  }

  /**
   * FollowReferences from the heap roots with `dumpHeapGraph`,
   * on a heap without tags, reporting `edges` in order; `sizeOf` gives the
   * size of each object. Returns the tags the objects end up with.
   */
  method DumpHeap(info: HeapDumpInfo, edges: seq<Edge>, sizeOf: ObjId -> nat) returns (slots: map<ObjId, int>)
    requires info.Info() == DumpInfo([[]], [0], [], 1) && ReferrersFirst(edges)
    modifies info
    ensures DumpState(info.Info(), slots, edges, sizeOf, |edges|)
  {
    slots := map[];
    DumpStart(edges, sizeOf);
    for i := 0 to |edges|
      invariant DumpState(info.Info(), slots, edges, sizeOf, i)
    {
      var e := edges[i];
      DumpStep(info.Info(), slots, edges, sizeOf, i);
      var t, v := info.DumpHeapGraph(TagOf(slots, e.referee), ReferrerTag(slots, e), sizeOf(e.referee));
      slots := slots[e.referee := t];
    }
  }

  /**
   * `executeOperation`. The heap is dumped (an error from
   * FollowReferences, `followFails`, gives no answer), the roots become
   * edges of the super-root, the retained sizes are calculated by the
   * corrected `CalculateRetainedSizes` (-1, not 0, for "no ancestor"), and every
   * object of `objects` gets the retained size of the vertex its tag names:
   * the subtree sum of that vertex in the dominator forest, at least the
   * object's own size. An object the dump never reached has tag 0 and gets
   * the entry of the super-root.
   */
  method ExecuteOperation(edges: seq<Edge>, sizeOf: ObjId -> nat, followFails: bool, objects: seq<ObjId>)
    returns (r: Option<seq<int>>, ghost slots: map<ObjId, int>, ghost sizes: seq<int>, ghost dom: seq<int>, ghost pre: seq<int>)
    requires ReferrersFirst(edges)
    ensures followFails <==> r.None?
    ensures r.Some? ==>
              && DomForest(dom, pre) && |sizes| == |pre| >= 1 && dom[0] == -1
              && (forall o :: o in slots ==> 1 <= slots[o] < |pre| && sizes[slots[o]] == sizeOf(o))
              && (forall i :: 0 <= i < |edges| ==> edges[i].referee in slots)
              && |r.value| == |objects|
              && forall i :: 0 <= i < |objects| ==>
                   0 <= TagOf(slots, objects[i]) < |pre| && r.value[i] == Subtree(dom, pre, sizes, TagOf(slots, objects[i]))
    ensures r.Some? ==> forall i :: 0 <= i < |objects| && objects[i] in slots ==> r.value[i] >= sizeOf(objects[i])
  {
    var info := new HeapDumpInfo();
    var tags := DumpHeap(info, edges, sizeOf);
    slots := tags;
    if followFails {
      return None, slots, [], [], [];
    }
    ghost var d := info.Info();
    RootedReachable(d);
    info.AddRootEdges();
    var retained;
    retained, dom, pre := CalculateRetainedSizes(info.graph, info.sizes);
    sizes := info.sizes;
    var result := [];
    for i := 0 to |objects|
      invariant |result| == i
      invariant forall k :: 0 <= k < i ==> result[k] == retained[TagOf(tags, objects[k])]
    {
      var t := TagOf(tags, objects[i]);
      result := result + [retained[t]];
    }
    r := Some(result);
    forall i | 0 <= i < |objects| && objects[i] in slots ensures r.value[i] >= sizeOf(objects[i]) {
      SubtreeAtLeast(dom, pre, sizes, TagOf(slots, objects[i]));
    }
  }
}
