/**
 * Dominator forests and the retained sizes they induce. A forest is given
 * by a `dom` vector (-1 for a root) together with a numbering `pre` under
 * which every vertex comes after its dominator. Both retained-size
 * calculators (src/sizes/dominator_tree.cpp and
 * src/sizes/retained_size_via_dominator_tree.cpp) accumulate subtree sums
 * over such a forest: one by peeling leaves, the other by walking every
 * vertex's dominator chain.
 */
module DominatorForest {
  /** `dom` is a forest ordered by `pre`. */
  ghost predicate DomForest(dom: seq<int>, pre: seq<int>) {
    && |dom| == |pre|
    && (forall x :: 0 <= x < |pre| ==> 0 <= pre[x] < |pre|)
    && (forall x {:trigger dom[x]} :: 0 <= x < |pre| ==> dom[x] == -1 || (0 <= dom[x] < |pre| && pre[dom[x]] < pre[x]))
  }

  /** The number of children of `v` among the vertices below `k`. */
  function Children(dom: seq<int>, v: int, k: int): (r: nat)
    requires 0 <= k <= |dom|
    ensures r <= k
    ensures r == 0 <==> forall c :: 0 <= c < k ==> dom[c] != v
  {
    if k == 0 then 0 else Children(dom, v, k - 1) + (if dom[k - 1] == v then 1 else 0)
  }

  /** The number of children of `v` below `k` that are not yet `done`. */
  function Pending(dom: seq<int>, done: seq<bool>, v: int, k: int): (r: nat)
    requires |done| == |dom| && 0 <= k <= |dom|
    ensures r <= Children(dom, v, k)
    ensures r == 0 <==> forall c :: 0 <= c < k && dom[c] == v ==> done[c]
  {
    if k == 0 then 0 else Pending(dom, done, v, k - 1) + (if dom[k - 1] == v && !done[k - 1] then 1 else 0)
  }

  /** The number of vertices below `k` that are not yet `done`. */
  function NotDone(done: seq<bool>, k: int): (r: nat)
    requires 0 <= k <= |done|
    ensures r <= k
  {
    if k == 0 then 0 else NotDone(done, k - 1) + (if done[k - 1] then 0 else 1)
  }

  /** The sum of the first `k` entries. */
  function Total(s: seq<int>, k: int): int
    requires 0 <= k <= |s|
  {
    if k == 0 then 0 else Total(s, k - 1) + s[k - 1]
  }

  /** The retained size of `v`: its own size plus the retained sizes of its children. */
  function Subtree(dom: seq<int>, pre: seq<int>, sizes: seq<int>, v: int): int
    requires DomForest(dom, pre) && |sizes| == |pre| && 0 <= v < |pre|
    decreases |pre| - pre[v], |pre| + 1
  {
    sizes[v] + ChildrenSum(dom, pre, sizes, v, |pre|)
  }

  /** The retained sizes of the children of `v` below `k`, added up. */
  function ChildrenSum(dom: seq<int>, pre: seq<int>, sizes: seq<int>, v: int, k: int): int
    requires DomForest(dom, pre) && |sizes| == |pre| && 0 <= v < |pre| && 0 <= k <= |pre|
    decreases |pre| - pre[v], k
  {
    if k == 0 then 0
    else ChildrenSum(dom, pre, sizes, v, k - 1) + (if dom[k - 1] == v then Subtree(dom, pre, sizes, k - 1) else 0)
  }

  /** The retained sizes of the `done` children of `v` below `k`, added up. */
  function DoneSum(dom: seq<int>, pre: seq<int>, sizes: seq<int>, done: seq<bool>, v: int, k: int): int
    requires DomForest(dom, pre) && |sizes| == |done| == |pre| && 0 <= v < |pre| && 0 <= k <= |pre|
  {
    if k == 0 then 0
    else DoneSum(dom, pre, sizes, done, v, k - 1) + (if dom[k - 1] == v && done[k - 1] then Subtree(dom, pre, sizes, k - 1) else 0)
  }

  /** The sum of `r` over the vertices below `k` not yet added to their dominator. */
  function LiveSum(r: seq<int>, dom: seq<int>, done: seq<bool>, k: int): int
    requires |r| == |dom| == |done| && 0 <= k <= |dom|
  {
    if k == 0 then 0
    else LiveSum(r, dom, done, k - 1) + (if done[k - 1] && dom[k - 1] >= 0 then 0 else r[k - 1])
  }

  /** The sum of `r` over the roots below `k`. */
  function RootSum(r: seq<int>, dom: seq<int>, k: int): int
    requires |r| == |dom| && 0 <= k <= |dom|
  {
    if k == 0 then 0 else RootSum(r, dom, k - 1) + (if dom[k - 1] == -1 then r[k - 1] else 0)
  }

  lemma {:induction false} SubtreeAtLeast(dom: seq<int>, pre: seq<int>, sizes: seq<int>, v: int)
    requires DomForest(dom, pre) && |sizes| == |pre| && 0 <= v < |pre|
    requires forall x :: 0 <= x < |sizes| ==> sizes[x] >= 0
    ensures Subtree(dom, pre, sizes, v) >= sizes[v]
    decreases |pre| - pre[v], |pre| + 1
  {
    ChildrenSumNonNegative(dom, pre, sizes, v, |pre|);
  }

  lemma {:induction false} ChildrenSumNonNegative(dom: seq<int>, pre: seq<int>, sizes: seq<int>, v: int, k: int)
    requires DomForest(dom, pre) && |sizes| == |pre| && 0 <= v < |pre| && 0 <= k <= |pre|
    requires forall x :: 0 <= x < |sizes| ==> sizes[x] >= 0
    ensures ChildrenSum(dom, pre, sizes, v, k) >= 0
    decreases |pre| - pre[v], k
  {
    if k > 0 {
      ChildrenSumNonNegative(dom, pre, sizes, v, k - 1);
      if dom[k - 1] == v {
        SubtreeAtLeast(dom, pre, sizes, k - 1);
      }
    }
  }

  lemma {:induction false} PendingNoneDone(dom: seq<int>, done: seq<bool>, v: int, k: int)
    requires |done| == |dom| && 0 <= k <= |dom| && forall c :: 0 <= c < |done| ==> !done[c]
    ensures Pending(dom, done, v, k) == Children(dom, v, k)
  {
    if k > 0 {
      PendingNoneDone(dom, done, v, k - 1);
    }
  }

  lemma {:induction false} PendingMark(dom: seq<int>, done: seq<bool>, v: int, k: int, x: int)
    requires |done| == |dom| && 0 <= k <= |dom| && 0 <= x < |dom| && !done[x]
    ensures Pending(dom, done[x := true], v, k) == Pending(dom, done, v, k) - (if x < k && dom[x] == v then 1 else 0)
  {
    if k > 0 {
      PendingMark(dom, done, v, k - 1, x);
    }
  }

  lemma {:induction false} NotDoneMark(done: seq<bool>, k: int, x: int)
    requires 0 <= k <= |done| && 0 <= x < |done| && !done[x]
    ensures NotDone(done[x := true], k) == NotDone(done, k) - (if x < k then 1 else 0)
  {
    if k > 0 {
      NotDoneMark(done, k - 1, x);
    }
  }

  lemma {:induction false} DoneSumNoneDone(dom: seq<int>, pre: seq<int>, sizes: seq<int>, done: seq<bool>, v: int, k: int)
    requires DomForest(dom, pre) && |sizes| == |done| == |pre| && 0 <= v < |pre| && 0 <= k <= |pre|
    requires forall c :: 0 <= c < |done| ==> !done[c]
    ensures DoneSum(dom, pre, sizes, done, v, k) == 0
  {
    if k > 0 {
      DoneSumNoneDone(dom, pre, sizes, done, v, k - 1);
    }
  }

  lemma {:induction false} DoneSumMark(dom: seq<int>, pre: seq<int>, sizes: seq<int>, done: seq<bool>, v: int, k: int, x: int)
    requires DomForest(dom, pre) && |sizes| == |done| == |pre| && 0 <= v < |pre| && 0 <= k <= |pre|
    requires 0 <= x < |pre| && !done[x]
    ensures DoneSum(dom, pre, sizes, done[x := true], v, k)
         == DoneSum(dom, pre, sizes, done, v, k) + (if x < k && dom[x] == v then Subtree(dom, pre, sizes, x) else 0)
  {
    if k > 0 {
      DoneSumMark(dom, pre, sizes, done, v, k - 1, x);
    }
  }

  /** Once every child of `v` is done, the done children account for all of them. */
  lemma {:induction false} DoneSumAll(dom: seq<int>, pre: seq<int>, sizes: seq<int>, done: seq<bool>, v: int, k: int)
    requires DomForest(dom, pre) && |sizes| == |done| == |pre| && 0 <= v < |pre| && 0 <= k <= |pre|
    requires forall c :: 0 <= c < k && dom[c] == v ==> done[c]
    ensures DoneSum(dom, pre, sizes, done, v, k) == ChildrenSum(dom, pre, sizes, v, k)
  {
    if k > 0 {
      DoneSumAll(dom, pre, sizes, done, v, k - 1);
    }
  }

  lemma {:induction false} LiveNoneDone(r: seq<int>, dom: seq<int>, done: seq<bool>, k: int)
    requires |r| == |dom| == |done| && 0 <= k <= |dom| && forall c :: 0 <= c < |done| ==> !done[c]
    ensures LiveSum(r, dom, done, k) == Total(r, k)
  {
    if k > 0 {
      LiveNoneDone(r, dom, done, k - 1);
    }
  }

  lemma {:induction false} LiveMark(r: seq<int>, dom: seq<int>, done: seq<bool>, k: int, x: int)
    requires |r| == |dom| == |done| && 0 <= k <= |dom| && 0 <= x < |dom| && !done[x]
    ensures LiveSum(r, dom, done[x := true], k) == LiveSum(r, dom, done, k) - (if x < k && dom[x] >= 0 then r[x] else 0)
  {
    if k > 0 {
      LiveMark(r, dom, done, k - 1, x);
    }
  }

  lemma {:induction false} LiveAdd(r: seq<int>, dom: seq<int>, done: seq<bool>, k: int, d: int, a: int)
    requires |r| == |dom| == |done| && 0 <= k <= |dom| && 0 <= d < |dom| && !(done[d] && dom[d] >= 0)
    ensures LiveSum(r[d := r[d] + a], dom, done, k) == LiveSum(r, dom, done, k) + (if d < k then a else 0)
  {
    if k > 0 {
      LiveAdd(r, dom, done, k - 1, d, a);
    }
  }

  /** Once every non-root is done, the live vertices are exactly the roots. */
  lemma {:induction false} LiveRoots(r: seq<int>, dom: seq<int>, done: seq<bool>, k: int)
    requires |r| == |dom| == |done| && 0 <= k <= |dom|
    requires forall c :: 0 <= c < k ==> dom[c] >= -1 && (dom[c] >= 0 ==> done[c])
    ensures LiveSum(r, dom, done, k) == RootSum(r, dom, k)
  {
    if k > 0 {
      LiveRoots(r, dom, done, k - 1);
    }
  }

  /** `v` is a proper ancestor of `w`: it lies on the chain of dominators above `w`. */
  ghost predicate Above(dom: seq<int>, pre: seq<int>, v: int, w: int)
    requires DomForest(dom, pre) && 0 <= w < |pre|
    decreases pre[w]
  {
    dom[w] != -1 && (dom[w] == v || Above(dom, pre, v, dom[w]))
  }

  /** The sizes of the proper descendants of `v` below `k`, added up. */
  ghost function ChainSum(dom: seq<int>, pre: seq<int>, sizes: seq<int>, v: int, k: int): int
    requires DomForest(dom, pre) && |sizes| == |pre| && 0 <= k <= |pre|
  {
    if k == 0 then 0
    else ChainSum(dom, pre, sizes, v, k - 1) + (if Above(dom, pre, v, k - 1) then sizes[k - 1] else 0)
  }

  /** An ancestor is numbered before its descendants. */
  lemma {:induction false} AboveEarlier(dom: seq<int>, pre: seq<int>, v: int, w: int)
    requires DomForest(dom, pre) && 0 <= w < |pre|
    ensures Above(dom, pre, v, w) ==> 0 <= v < |pre| && pre[v] < pre[w]
    decreases pre[w]
  {
    if dom[w] != -1 && dom[w] != v {
      AboveEarlier(dom, pre, v, dom[w]);
    }
  }

  /** Whatever lies above a vertex lies above its descendants too. */
  lemma {:induction false} AboveThrough(dom: seq<int>, pre: seq<int>, c: int, w: int)
    requires DomForest(dom, pre) && 0 <= c < |pre| && 0 <= w < |pre| && dom[c] != -1 && Above(dom, pre, c, w)
    ensures Above(dom, pre, dom[c], w)
    decreases pre[w]
  {
    if dom[w] != c {
      AboveThrough(dom, pre, c, dom[w]);
    }
  }

  /** The child of `v` on the way down to its descendant `w` (possibly `w` itself). */
  ghost function ChildToward(dom: seq<int>, pre: seq<int>, v: int, w: int): (c: int)
    requires DomForest(dom, pre) && 0 <= w < |pre| && Above(dom, pre, v, w)
    ensures 0 <= c < |pre| && dom[c] == v && (c == w || Above(dom, pre, c, w))
    decreases pre[w]
  {
    if dom[w] == v then w else ChildToward(dom, pre, v, dom[w])
  }

  /** A child of `v` that is `w` or above it is the child toward `w`, and `v` is then above `w`. */
  lemma {:induction false} ChildTowardUnique(dom: seq<int>, pre: seq<int>, v: int, w: int, c: int)
    requires DomForest(dom, pre) && 0 <= w < |pre| && 0 <= c < |pre| && 0 <= v
    requires dom[c] == v && (c == w || Above(dom, pre, c, w))
    ensures Above(dom, pre, v, w) && ChildToward(dom, pre, v, w) == c
    decreases pre[w]
  {
    if c != w {
      if dom[w] == v {
        AboveEarlier(dom, pre, c, v);
        assert false;
      }
      ChildTowardUnique(dom, pre, v, dom[w], c);
    }
  }

  /**
   * Over the children `c < j` of `v`: the size of `c` when `c` is below `k`
   * plus the sizes of the proper descendants of `c` below `k`.
   */
  ghost function KidsChain(dom: seq<int>, pre: seq<int>, sizes: seq<int>, v: int, j: int, k: int): int
    requires DomForest(dom, pre) && |sizes| == |pre| && 0 <= j <= |pre| && 0 <= k <= |pre|
  {
    if j == 0 then 0
    else
      var own := if j - 1 < k then sizes[j - 1] else 0;
      KidsChain(dom, pre, sizes, v, j - 1, k) + (if dom[j - 1] == v then own + ChainSum(dom, pre, sizes, j - 1, k) else 0)
  }

  lemma {:induction false} KidsChainNone(dom: seq<int>, pre: seq<int>, sizes: seq<int>, v: int, j: int)
    requires DomForest(dom, pre) && |sizes| == |pre| && 0 <= j <= |pre|
    ensures KidsChain(dom, pre, sizes, v, j, 0) == 0
  {
    if j > 0 {
      KidsChainNone(dom, pre, sizes, v, j - 1);
    }
  }

  /** Counting the descendant `k` once more: it shows up under exactly one child of `v`, when `v` is above it. */
  lemma {:induction false} KidsChainStep(dom: seq<int>, pre: seq<int>, sizes: seq<int>, v: int, j: int, k: int)
    requires DomForest(dom, pre) && |sizes| == |pre| && 0 <= j <= |pre| && 0 <= k < |pre| && 0 <= v
    ensures KidsChain(dom, pre, sizes, v, j, k + 1)
         == KidsChain(dom, pre, sizes, v, j, k) + (if Above(dom, pre, v, k) && ChildToward(dom, pre, v, k) < j then sizes[k] else 0)
  {
    if j > 0 {
      KidsChainStep(dom, pre, sizes, v, j - 1, k);
      var c := j - 1;
      AboveEarlier(dom, pre, c, k);
      if dom[c] == v && (c == k || Above(dom, pre, c, k)) {
        ChildTowardUnique(dom, pre, v, k, c);
      }
    }
  }

  lemma {:induction false} ChainKids(dom: seq<int>, pre: seq<int>, sizes: seq<int>, v: int, k: int)
    requires DomForest(dom, pre) && |sizes| == |pre| && 0 <= v < |pre| && 0 <= k <= |pre|
    ensures ChainSum(dom, pre, sizes, v, k) == KidsChain(dom, pre, sizes, v, |pre|, k)
  {
    if k == 0 {
      KidsChainNone(dom, pre, sizes, v, |pre|);
    } else {
      ChainKids(dom, pre, sizes, v, k - 1);
      KidsChainStep(dom, pre, sizes, v, |pre|, k - 1);
    }
  }

  /** The retained size of `v` is its own size plus the sizes of all vertices it lies above. */
  lemma {:induction false} SubtreeChain(dom: seq<int>, pre: seq<int>, sizes: seq<int>, v: int)
    requires DomForest(dom, pre) && |sizes| == |pre| && 0 <= v < |pre|
    ensures Subtree(dom, pre, sizes, v) == sizes[v] + ChainSum(dom, pre, sizes, v, |pre|)
    decreases |pre| - pre[v], |pre| + 1
  {
    ChildrenKids(dom, pre, sizes, v, |pre|);
    ChainKids(dom, pre, sizes, v, |pre|);
  }

  lemma {:induction false} ChildrenKids(dom: seq<int>, pre: seq<int>, sizes: seq<int>, v: int, k: int)
    requires DomForest(dom, pre) && |sizes| == |pre| && 0 <= v < |pre| && 0 <= k <= |pre|
    ensures ChildrenSum(dom, pre, sizes, v, k) == KidsChain(dom, pre, sizes, v, k, |pre|)
    decreases |pre| - pre[v], k
  {
    if k > 0 {
      ChildrenKids(dom, pre, sizes, v, k - 1);
      if dom[k - 1] == v {
        SubtreeChain(dom, pre, sizes, k - 1);
      }
    }
  }
}
