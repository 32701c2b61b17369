/**
 * The search of the GC-root path finder: a breadth-first walk over the
 * recorded back-references from the start object toward the heap roots,
 * then the assembly of the paths from each root found back to the start.
 */
module PathsSearch {
  import opened Jvmti
  import Infos
  import PathsResult
  import PathsToClosestGcRoots

  const SIZE_T_MODULUS: int := 0x1_0000_0000_0000_0000

  /** A jint compared with or subtracted from a `size_t`: converted modulo 2^64. */
  function SizeT(x: int): (r: nat)
    ensures r < SIZE_T_MODULUS
    ensures 0 <= x < SIZE_T_MODULUS ==> r == x
    ensures -SIZE_T_MODULUS <= x < 0 ==> r == x + SIZE_T_MODULUS
  {
    x % SIZE_T_MODULUS
  }

  /** `isValidGcRoot`: a root back-reference that is not a JNI reference. */
  function IsValidGcRoot(tag: int, kind: int): (r: bool)
    ensures r <==> tag == -1 && !IsJniReference(kind)
  {
    tag == -1 && kind != JNI_GLOBAL && kind != JNI_LOCAL
  }

  /** The back-references recorded on every tag. */
  type BackRefs = map<int, seq<Infos.ReferenceInfo>>

  /** `pointerToGcTag(tag)->backRefs`; a tag without records (such as 0) has none. */
  function RefsOf(b: BackRefs, tag: int): seq<Infos.ReferenceInfo> {
    if tag in b then b[tag] else []
  }

  /** The object behind `tag` has a back-reference that makes it a GC root. */
  ghost predicate IsGcRoot(b: BackRefs, tag: int) {
    exists j :: 0 <= j < |RefsOf(b, tag)| && IsValidGcRoot(RefsOf(b, tag)[j].tag, RefsOf(b, tag)[j].kind)
  }

  /** `referrer` is recorded as referring to `referee`. */
  ghost predicate RefersTo(b: BackRefs, referrer: int, referee: int) {
    exists j :: 0 <= j < |RefsOf(b, referee)| && RefsOf(b, referee)[j].tag == referrer
  }

  /** Every tag the search can come across: the start and each recorded referrer. */
  ghost function Universe(b: BackRefs, start: int): set<int> {
    (set p, x | p in b && x in b[p] :: x.tag) + {start}
  }

  /**
   * `prevTag` is a tree toward `start`: start maps to itself, every other
   * discovered tag to a discovered tag one step nearer to start.
   */
  ghost predicate PrevTree(prev: map<int, int>, dist: map<int, nat>, start: int) {
    && start in prev && prev[start] == start && prev.Keys == dist.Keys && dist[start] == 0
    && forall k {:trigger prev[k]} :: k in prev && k != start ==> prev[k] in prev && dist[k] == dist[prev[k]] + 1
  }

  /** What the search knows: the prev tree, each of its links a recorded back-reference. */
  ghost predicate Discovered(b: BackRefs, start: int, prev: map<int, int>, dist: map<int, nat>) {
    && PrevTree(prev, dist, start)
    && (forall k :: k in prev && k != start ==> RefersTo(b, k, prev[k]))
    && prev.Keys <= Universe(b, start)
  }

  /** The roots found: distinct, discovered, each a GC root, in breadth-first order. */
  ghost predicate RootsFound(b: BackRefs, prev: map<int, int>, dist: map<int, nat>, found: seq<int>, foundSet: set<int>) {
    && (forall x :: x in foundSet <==> x in found)
    && (forall i, j :: 0 <= i < j < |found| ==> found[i] != found[j])
    && (forall i :: 0 <= i < |found| ==> found[i] in prev && found[i] in dist && IsGcRoot(b, found[i]))
    && (forall i, j :: 0 <= i < j < |found| && found[i] in dist && found[j] in dist ==> dist[found[i]] <= dist[found[j]])
  }

  /** The queue holds discovered tags in non-decreasing distance, spanning at most one step. */
  ghost predicate QueueOrdered(prev: map<int, int>, dist: map<int, nat>, queue: seq<int>) {
    && (forall j :: 0 <= j < |queue| ==> queue[j] in prev && queue[j] in dist)
    && (forall i, j :: 0 <= i < j < |queue| ==> dist[queue[i]] <= dist[queue[j]])
    && (forall j :: 0 <= j < |queue| ==> dist[queue[j]] <= dist[queue[0]] + 1)
  }

  /** No root found so far is farther than a queued tag. */
  ghost predicate FoundBefore(dist: map<int, nat>, found: seq<int>, queue: seq<int>) {
    forall i, j :: 0 <= i < |found| && 0 <= j < |queue| && found[i] in dist && queue[j] in dist ==>
      dist[found[i]] <= dist[queue[j]]
  }

  /** The path from a discovered tag along `prevTag`. */
  ghost function Chain(prev: map<int, int>, dist: map<int, nat>, start: int, k: int): (r: seq<int>)
    requires PrevTree(prev, dist, start) && k in prev
    ensures |r| == dist[k] + 1 && r[0] == k && r[|r| - 1] == start
    ensures forall i :: 0 <= i < |r| ==> r[i] in prev
    ensures forall i {:trigger prev[r[i]]} :: 0 <= i < |r| - 1 ==> r[i + 1] == prev[r[i]]
    ensures forall i :: 0 <= i < |r| ==> r[i] in dist && dist[r[i]] == dist[k] - i
    decreases dist[k]
  {
    if k == start then [start] else [k] + Chain(prev, dist, start, prev[k])
  }

  /** The result of `collectPathsToClosestGcRoots`'s search: stopped, or the roots and the tree. */
  datatype Search = Stopped | Search(found: seq<int>, prev: map<int, int>)

  /**
   * What one pass of the inner loop keeps, from the state before it
   * (`queue`, `prev`, `found`, `dist`) to the state now: the tree and the
   * roots stay well formed, at most `number` roots, earlier roots and tree
   * entries unchanged, one queue entry per new tag, every queued tag one
   * step at most beyond `tag`, no root beyond `tag`.
   */
  ghost predicate Extends(b: BackRefs, start: int, number: int, tag: int,
                          queue: seq<int>, prev: map<int, int>, found: seq<int>, dist: map<int, nat>,
                          queue': seq<int>, prev': map<int, int>, found': seq<int>, foundSet': set<int>, dist': map<int, nat>)
  {
    && Discovered(b, start, prev', dist') && RootsFound(b, prev', dist', found', foundSet')
    && Grown(number, prev, found, dist, prev', found', dist') && tag in dist
    && |queue'| == |queue| + |prev'.Keys - prev.Keys| && queue'[..|queue|] == queue
    && QueueNear(prev', dist', queue', dist[tag])
    && (forall i :: 0 <= i < |found'| ==> found'[i] in dist' && dist'[found'[i]] <= dist[tag])
  }

  /** At most `number` roots; the earlier roots and tree entries are kept. */
  ghost predicate Grown(number: int, prev: map<int, int>, found: seq<int>, dist: map<int, nat>,
                        prev': map<int, int>, found': seq<int>, dist': map<int, nat>)
  {
    && |found'| <= SizeT(number) && |found| <= |found'| && found'[..|found|] == found
    && prev.Keys <= prev'.Keys
    && (forall k :: k in prev ==> k in dist && k in dist' && prev'[k] == prev[k] && dist'[k] == dist[k])
  }

  /** Every queued tag is discovered, at distance `d` or `d + 1`, in non-decreasing order. */
  ghost predicate QueueNear(prev: map<int, int>, dist: map<int, nat>, queue: seq<int>, d: nat) {
    && (forall j :: 0 <= j < |queue| ==> queue[j] in prev && queue[j] in dist && d <= dist[queue[j]] <= d + 1)
    && (forall i, j :: 0 <= i < j < |queue| ==> dist[queue[i]] <= dist[queue[j]])
  }

  /**
   * One pass of the inner loop: the back-references of `tag`, at distance
   * `dist[tag]` from start. A valid root reference records `tag` as a root
   * once; any other referrer not yet discovered is discovered from `tag`
   * and queued. The pass stops once `number` roots are found.
   */
  method Scan(b: BackRefs, start: int, number: int, tag: int,
              queue: seq<int>, prev: map<int, int>, found: seq<int>, foundSet: set<int>, ghost dist: map<int, nat>)
    returns (queue': seq<int>, prev': map<int, int>, found': seq<int>, foundSet': set<int>, ghost dist': map<int, nat>)
    requires Discovered(b, start, prev, dist) && RootsFound(b, prev, dist, found, foundSet)
    requires tag in prev && |found| < SizeT(number)
    requires forall j :: 0 <= j < |queue| ==> queue[j] in prev && dist[tag] <= dist[queue[j]] <= dist[tag] + 1
    requires forall i, j :: 0 <= i < j < |queue| ==> dist[queue[i]] <= dist[queue[j]]
    requires forall i :: 0 <= i < |found| ==> dist[found[i]] <= dist[tag]
    ensures Extends(b, start, number, tag, queue, prev, found, dist, queue', prev', found', foundSet', dist')
  {
    queue', prev', found', foundSet', dist' := queue, prev, found, foundSet, dist;
    assert prev'.Keys - prev.Keys == {};
    var infos := RefsOf(b, tag);
    var i := 0;
    while i < |infos|
      invariant 0 <= i <= |infos|
      invariant Extends(b, start, number, tag, queue, prev, found, dist, queue', prev', found', foundSet', dist')
      invariant |found'| == SizeT(number) ==> i == |infos|
    {
      var parentTag := infos[i].tag;
      if IsValidGcRoot(parentTag, infos[i].kind) && tag !in foundSet' {
        assert IsGcRoot(b, tag);
        ExtendsRoot(b, start, number, tag, queue, prev, found, dist, queue', prev', found', foundSet', dist');
        foundSet' := foundSet' + {tag};
        found' := found' + [tag];
      } else if parentTag != -1 && parentTag !in prev' {
        assert RefersTo(b, parentTag, tag);
        assert tag in b && infos[i] in b[tag];
        ExtendsDiscover(b, start, number, tag, queue, prev, found, dist, queue', prev', found', foundSet', dist', parentTag);
        prev' := prev'[parentTag := tag];
        dist' := dist'[parentTag := dist'[tag] + 1];
        queue' := queue' + [parentTag];
      }
      i := i + 1;
      if |found'| >= SizeT(number) {
        break;
      }
    }
  }

  lemma ExtendsRoot(b: BackRefs, start: int, number: int, tag: int,
                    queue: seq<int>, prev: map<int, int>, found: seq<int>, dist: map<int, nat>,
                    queue': seq<int>, prev': map<int, int>, found': seq<int>, foundSet': set<int>, dist': map<int, nat>)
    requires Extends(b, start, number, tag, queue, prev, found, dist, queue', prev', found', foundSet', dist')
    requires tag in prev && tag !in foundSet' && IsGcRoot(b, tag) && |found'| < SizeT(number)
    ensures Extends(b, start, number, tag, queue, prev, found, dist, queue', prev', found' + [tag], foundSet' + {tag}, dist')
  {
    RootStep(b, prev', dist', found', foundSet', tag);
    assert (found' + [tag])[..|found|] == found'[..|found|];
  }

  lemma ExtendsDiscover(b: BackRefs, start: int, number: int, tag: int,
                        queue: seq<int>, prev: map<int, int>, found: seq<int>, dist: map<int, nat>,
                        queue': seq<int>, prev': map<int, int>, found': seq<int>, foundSet': set<int>, dist': map<int, nat>,
                        parent: int)
    requires Extends(b, start, number, tag, queue, prev, found, dist, queue', prev', found', foundSet', dist')
    requires tag in prev && parent !in prev' && RefersTo(b, parent, tag) && parent in Universe(b, start)
    ensures Extends(b, start, number, tag, queue, prev, found, dist,
                    queue' + [parent], prev'[parent := tag], found', foundSet', dist'[parent := dist'[tag] + 1])
  {
    var prev2, dist2, queue2 := prev'[parent := tag], dist'[parent := dist'[tag] + 1], queue' + [parent];
    assert Discovered(b, start, prev2, dist2) && RootsFound(b, prev2, dist2, found', foundSet') by {
      DiscoverStep(b, start, prev', dist', found', foundSet', parent, tag);
    }
    assert |queue2| == |queue| + |prev2.Keys - prev.Keys| && queue2[..|queue|] == queue by {
      QueueGrows(queue, queue', prev, prev', parent, tag);
    }
    assert QueueNear(prev2, dist2, queue2, dist[tag]) by {
      QueueNearPush(prev', dist', queue', dist[tag], parent, tag);
    }
    assert Grown(number, prev, found, dist, prev2, found', dist2) && forall i :: 0 <= i < |found'| ==> found'[i] in dist2 && dist2[found'[i]] <= dist[tag] by {
      GrownStep(number, prev, found, dist, prev', found', dist', parent, tag, dist[tag]);
    }
  }

  /** A new tree entry keeps the earlier entries and the distances of the roots found. */
  lemma GrownStep(number: int, prev: map<int, int>, found: seq<int>, dist: map<int, nat>,
                  prev': map<int, int>, found': seq<int>, dist': map<int, nat>, parent: int, tag: int, d: nat)
    requires Grown(number, prev, found, dist, prev', found', dist') && parent !in prev' && prev'.Keys == dist'.Keys && tag in dist'
    requires forall i :: 0 <= i < |found'| ==> found'[i] in dist' && found'[i] in prev' && dist'[found'[i]] <= d
    ensures Grown(number, prev, found, dist, prev'[parent := tag], found', dist'[parent := dist'[tag] + 1])
    ensures forall i :: 0 <= i < |found'| ==> found'[i] in dist'[parent := dist'[tag] + 1] && dist'[parent := dist'[tag] + 1][found'[i]] <= d
  {
    forall i | 0 <= i < |found'| ensures found'[i] != parent {
      assert found'[i] in prev';
    }
  }

  /** Queuing a new tag one step beyond the queue's floor keeps it ordered. */
  lemma QueueNearPush(prev: map<int, int>, dist: map<int, nat>, queue: seq<int>, d: nat, parent: int, tag: int)
    requires QueueNear(prev, dist, queue, d) && parent !in prev && tag in dist && dist[tag] == d
    requires prev.Keys == dist.Keys
    ensures QueueNear(prev[parent := tag], dist[parent := d + 1], queue + [parent], d)
  {
    var prev2, dist2, queue2 := prev[parent := tag], dist[parent := d + 1], queue + [parent];
    forall j | 0 <= j < |queue2| ensures queue2[j] in prev2 && queue2[j] in dist2 && d <= dist2[queue2[j]] <= d + 1 {
      if j < |queue| {
        assert queue2[j] == queue[j] && queue[j] != parent;
      }
    }
    forall i, j | 0 <= i < j < |queue2| ensures dist2[queue2[i]] <= dist2[queue2[j]] {
      assert queue2[i] == queue[i] && queue[i] != parent;
      if j < |queue| {
        assert queue2[j] == queue[j] && queue[j] != parent;
      }
    }
  }

  /** Recording a root at least as far as every root before it keeps the roots in order. */
  lemma RootStep(b: BackRefs, prev: map<int, int>, dist: map<int, nat>, found: seq<int>, foundSet: set<int>, tag: int)
    requires RootsFound(b, prev, dist, found, foundSet)
    requires tag in prev && tag in dist && tag !in foundSet && IsGcRoot(b, tag)
    requires forall i :: 0 <= i < |found| ==> dist[found[i]] <= dist[tag]
    ensures RootsFound(b, prev, dist, found + [tag], foundSet + {tag})
  {
  }

  /** Discovering a referrer of a discovered tag, one step farther, keeps the tree and the roots. */
  lemma DiscoverStep(b: BackRefs, start: int, prev: map<int, int>, dist: map<int, nat>,
                     found: seq<int>, foundSet: set<int>, parent: int, tag: int)
    requires Discovered(b, start, prev, dist) && RootsFound(b, prev, dist, found, foundSet)
    requires tag in prev && parent !in prev && RefersTo(b, parent, tag) && parent in Universe(b, start)
    ensures Discovered(b, start, prev[parent := tag], dist[parent := dist[tag] + 1])
    ensures RootsFound(b, prev[parent := tag], dist[parent := dist[tag] + 1], found, foundSet)
  {
    var prev', dist' := prev[parent := tag], dist[parent := dist[tag] + 1];
    assert PrevTree(prev', dist', start) by {
      assert prev'.Keys == prev.Keys + {parent} && dist'.Keys == dist.Keys + {parent};
    }
    assert forall k :: k in prev' && k != start ==> RefersTo(b, k, prev'[k]);
    assert prev'.Keys <= Universe(b, start) by {
      assert prev'.Keys == prev.Keys + {parent};
    }
    assert forall i :: 0 <= i < |found| ==> found[i] != parent && dist'[found[i]] == dist[found[i]];
  }

  /** Discovering a new key adds one to the count of discovered keys. */
  lemma NewKey(prev: map<int, int>, prev': map<int, int>, k: int, v: int)
    requires prev.Keys <= prev'.Keys && k !in prev'
    ensures |prev'[k := v].Keys - prev.Keys| == |prev'.Keys - prev.Keys| + 1
  {
    assert prev'[k := v].Keys - prev.Keys == (prev'.Keys - prev.Keys) + {k};
  }

  /** Queuing a newly discovered tag keeps the queue one entry per new tree entry, and its old prefix. */
  lemma QueueGrows(queue: seq<int>, queue': seq<int>, prev: map<int, int>, prev': map<int, int>, parent: int, tag: int)
    requires |queue'| == |queue| + |prev'.Keys - prev.Keys| && queue'[..|queue|] == queue
    requires prev.Keys <= prev'.Keys && parent !in prev'
    ensures |queue' + [parent]| == |queue| + |prev'[parent := tag].Keys - prev.Keys|
    ensures (queue' + [parent])[..|queue|] == queue
  {
    NewKey(prev, prev', parent, tag);
    assert (queue' + [parent])[..|queue|] == queue'[..|queue|];
  }

  /** A ⊆ B ⊆ U with B larger than A leaves fewer elements of U outside B than outside A. */
  lemma FewerOutside(u: set<int>, a: set<int>, b: set<int>)
    requires a <= b <= u && |b - a| > 0
    ensures |u - b| < |u - a|
  {
    assert u - a == (u - b) + (b - a);
    assert (u - b) * (b - a) == {};
  }

  /** Where one step of the search leaves the queue and the tree: still ordered, and nearer the end. */
  lemma AfterScan(b: BackRefs, start: int, number: int, tag: int,
                  queue: seq<int>, prev: map<int, int>, found: seq<int>, dist: map<int, nat>,
                  queue': seq<int>, prev': map<int, int>, found': seq<int>, foundSet': set<int>, dist': map<int, nat>)
    requires Discovered(b, start, prev, dist)
    requires Extends(b, start, number, tag, queue, prev, found, dist, queue', prev', found', foundSet', dist')
    ensures QueueOrdered(prev', dist', queue') && FoundBefore(dist', found', queue') && |found'| <= SizeT(number)
    ensures |Universe(b, start) - prev'.Keys| <= |Universe(b, start) - prev.Keys|
    ensures |Universe(b, start) - prev'.Keys| == |Universe(b, start) - prev.Keys| ==> |queue'| == |queue|
  {
    assert QueueNear(prev', dist', queue', dist[tag]);
    if |prev'.Keys - prev.Keys| > 0 {
      FewerOutside(Universe(b, start), prev.Keys, prev'.Keys);
    } else {
      assert prev'.Keys == prev.Keys;
    }
  }

  /** The front of an ordered queue meets what one step of the search needs. */
  lemma BeforeScan(b: BackRefs, prev: map<int, int>, dist: map<int, nat>, found: seq<int>, queue: seq<int>)
    requires QueueOrdered(prev, dist, queue) && FoundBefore(dist, found, queue) && queue != []
    requires forall i :: 0 <= i < |found| ==> found[i] in dist
    ensures queue[0] in prev
    ensures forall j :: 0 <= j < |queue[1..]| ==> queue[1..][j] in prev && dist[queue[0]] <= dist[queue[1..][j]] <= dist[queue[0]] + 1
    ensures forall i, j :: 0 <= i < j < |queue[1..]| ==> dist[queue[1..][i]] <= dist[queue[1..][j]]
    ensures forall i :: 0 <= i < |found| ==> dist[found[i]] <= dist[queue[0]]
  {
    forall j | 0 <= j < |queue[1..]|
      ensures queue[1..][j] in prev && dist[queue[0]] <= dist[queue[1..][j]] <= dist[queue[0]] + 1
    {
      assert queue[1..][j] == queue[j + 1];
    }
    forall i, j | 0 <= i < j < |queue[1..]| ensures dist[queue[1..][i]] <= dist[queue[1..][j]] {
      assert queue[1..][i] == queue[i + 1] && queue[1..][j] == queue[j + 1];
    }
  }

  /**
   * The answer of the k-th `shouldStopExecution()` call, as a run of the
   * cancellation checker produces them; a check past the answers given
   * says go on.
   */
  function StopAnswer(stops: seq<bool>, k: nat): (r: bool)
    ensures r ==> k < |stops|
  {
    k < |stops| && stops[k]
  }

  /** A check that says go on extends the run of checks that said go on. */
  lemma NoStopNext(stops: seq<bool>, n: nat)
    requires forall k :: 0 <= k < n ==> !StopAnswer(stops, k)
    requires !StopAnswer(stops, n)
    ensures forall k :: 0 <= k < n + 1 ==> !StopAnswer(stops, k)
  {
  }

  /** The search starts from start alone, at distance 0, with no root found. */
  lemma SearchStart(b: BackRefs, start: int)
    ensures Discovered(b, start, map[start := start], map[start := 0])
    ensures RootsFound(b, map[start := start], map[start := 0], [], {})
    ensures QueueOrdered(map[start := start], map[start := 0], [start]) && FoundBefore(map[start := 0], [], [start])
  {
  }

  /** The set of roots found is the set of the found sequence. */
  lemma RootsFoundAsSet(b: BackRefs, prev: map<int, int>, dist: map<int, nat>, found: seq<int>, foundSet: set<int>)
    requires RootsFound(b, prev, dist, found, foundSet)
    ensures RootsFound(b, prev, dist, found, set x | x in found)
  {
    var s := set x | x in found;
    forall x ensures x in foundSet <==> x in s {
      assert x in foundSet <==> x in found;
    }
    assert foundSet == s;
  }

  /** One pass of the outer loop: the front of the queue popped and scanned. */
  method SearchStep(b: BackRefs, start: int, number: int,
                    queue: seq<int>, prev: map<int, int>, found: seq<int>, foundSet: set<int>, ghost dist: map<int, nat>)
    returns (queue': seq<int>, prev': map<int, int>, found': seq<int>, foundSet': set<int>, ghost dist': map<int, nat>)
    requires Discovered(b, start, prev, dist) && RootsFound(b, prev, dist, found, foundSet)
    requires QueueOrdered(prev, dist, queue) && FoundBefore(dist, found, queue)
    requires queue != [] && |found| < SizeT(number)
    ensures Discovered(b, start, prev', dist') && RootsFound(b, prev', dist', found', foundSet')
    ensures QueueOrdered(prev', dist', queue') && FoundBefore(dist', found', queue') && |found'| <= SizeT(number)
    ensures |Universe(b, start) - prev'.Keys| <= |Universe(b, start) - prev.Keys|
    ensures |Universe(b, start) - prev'.Keys| == |Universe(b, start) - prev.Keys| ==> |queue'| < |queue|
  {
    BeforeScan(b, prev, dist, found, queue);
    queue', prev', found', foundSet', dist' := Scan(b, start, number, queue[0], queue[1..], prev, found, foundSet, dist);
    AfterScan(b, start, number, queue[0], queue[1..], prev, found, dist, queue', prev', found', foundSet', dist');
  }

  /**
   * `collectPathsToClosestGcRoots`'s search: breadth first from `start`
   * along the recorded referrers until the queue is empty or `number`
   * roots are found. `StopAnswer(stops, k)` is the answer of the k-th
   * `shouldStopExecution()` call; the search gives up when one says yes.
   */
  method CollectRoots(b: BackRefs, start: int, number: int, stops: seq<bool>)
    returns (r: Search, ghost dist: map<int, nat>, checks: nat)
    ensures forall k :: 0 <= k < checks ==> !StopAnswer(stops, k)
    ensures r.Stopped? <==> StopAnswer(stops, checks)
    ensures r.Search? ==>
              && Discovered(b, start, r.prev, dist)
              && RootsFound(b, r.prev, dist, r.found, set x | x in r.found)
              && |r.found| <= SizeT(number)
              && (SizeT(number) == 0 ==> r.found == [])
  {
    var queue := [start];
    var prev := map[start := start];
    dist := map[start := 0];
    var found: seq<int> := [];
    var foundSet: set<int> := {};
    checks := 0;
    SearchStart(b, start);
    while queue != [] && SizeT(number) > |found|
      invariant Discovered(b, start, prev, dist) && RootsFound(b, prev, dist, found, foundSet)
      invariant QueueOrdered(prev, dist, queue) && FoundBefore(dist, found, queue)
      invariant |found| <= SizeT(number)
      invariant forall k :: 0 <= k < checks ==> !StopAnswer(stops, k)
      decreases |Universe(b, start) - prev.Keys|, |queue|
    {
      if StopAnswer(stops, checks) {
        r := Stopped;
        return;
      }
      NoStopNext(stops, checks);
      checks := checks + 1;
      queue, prev, found, foundSet, dist := SearchStep(b, start, number, queue, prev, found, foundSet, dist);
    }
    if StopAnswer(stops, checks) {
      r := Stopped;
      return;
    }
    RootsFoundAsSet(b, prev, dist, found, foundSet);
    r := Search(found, prev);
  }

  /** `getReferrerInfo`'s answer: the first record of `infos` whose referrer is `referrer`. */
  function FirstReferrer(infos: seq<Infos.ReferenceInfo>, referrer: int): Option<Infos.ReferenceInfo>
    decreases |infos|
  {
    if infos == [] then None
    else if infos[0].tag == referrer then Some(infos[0])
    else FirstReferrer(infos[1..], referrer)
  }

  /** `getReferrerInfo` finds nothing exactly when no record has the referrer, and otherwise the first one that has. */
  lemma {:induction false} FirstReferrerFinds(infos: seq<Infos.ReferenceInfo>, referrer: int)
    ensures var r := FirstReferrer(infos, referrer);
            && (r.None? <==> forall j :: 0 <= j < |infos| ==> infos[j].tag != referrer)
            && (r.Some? ==> exists i :: 0 <= i < |infos| && infos[i] == r.value && r.value.tag == referrer
                                        && forall j :: 0 <= j < i ==> infos[j].tag != referrer)
    decreases |infos|
  {
    if infos != [] && infos[0].tag != referrer {
      FirstReferrerFinds(infos[1..], referrer);
      assert forall j :: 1 <= j < |infos| ==> infos[j] == infos[1..][j - 1];
      var r := FirstReferrer(infos[1..], referrer);
      if r.Some? {
        var i :| 0 <= i < |infos[1..]| && infos[1..][i] == r.value && r.value.tag == referrer
                 && forall j :: 0 <= j < i ==> infos[1..][j].tag != referrer;
        assert infos[i + 1] == r.value && forall j :: 0 <= j < i + 1 ==> infos[j].tag != referrer;
      }
    }
  }

  /** The loop of `getReferrerInfo`: the recorded back-reference of `referee` from `referrer`, if any. */
  method GetReferrerInfo(b: BackRefs, referee: int, referrer: int) returns (r: Option<Infos.ReferenceInfo>)
    ensures r == FirstReferrer(RefsOf(b, referee), referrer)
  {
    var infos := RefsOf(b, referee);
    for i := 0 to |infos|
      invariant FirstReferrer(infos, referrer) == FirstReferrer(infos[i..], referrer)
    {
      assert infos[i..][1..] == infos[i + 1..];
      if infos[i].tag == referrer {
        return Some(infos[i]);
      }
    }
    return None;
  }

  /** The root records among `infos`, in order: those `insertRootInfos` copies. */
  function RootRecords(infos: seq<Infos.ReferenceInfo>): (r: seq<Infos.ReferenceInfo>)
    ensures forall x :: x in r <==> x in infos && x.tag == -1
    decreases |infos|
  {
    if infos == [] then []
    else
      var n := |infos| - 1;
      var front := RootRecords(infos[..n]);
      assert forall x :: x in infos <==> x in infos[..n] || x == infos[n];
      if infos[n].tag == -1 then front + [infos[n]] else front
  }

  /** The records collected so far for `tag`, or none. */
  function InfosOf(tagToInfos: map<int, seq<Infos.ReferenceInfo>>, tag: int): seq<Infos.ReferenceInfo> {
    if tag in tagToInfos then tagToInfos[tag] else []
  }

  /** `insertRootInfos`: the root records of `referee` appended to its collected records, created if missing. */
  method InsertRootInfos(b: BackRefs, referee: int, tagToInfos: map<int, seq<Infos.ReferenceInfo>>)
    returns (r: map<int, seq<Infos.ReferenceInfo>>)
    ensures r == tagToInfos[referee := InfosOf(tagToInfos, referee) + RootRecords(RefsOf(b, referee))]
  {
    var infos := RefsOf(b, referee);
    var pInfos := InfosOf(tagToInfos, referee);
    for i := 0 to |infos|
      invariant pInfos == InfosOf(tagToInfos, referee) + RootRecords(infos[..i])
    {
      assert infos[..i + 1][..i] == infos[..i];
      if infos[i].tag == -1 {
        pInfos := pInfos + [infos[i]];
      }
    }
    assert infos[..|infos|] == infos;
    r := tagToInfos[referee := pInfos];
  }

  /**
   * `insertInfos`: the back-reference of `referee` from `referrer`
   * appended to the referee's records, created if missing; `existed` says
   * whether the referee had records already.
   */
  method InsertInfos(b: BackRefs, referee: int, referrer: int, tagToInfos: map<int, seq<Infos.ReferenceInfo>>)
    returns (existed: bool, r: map<int, seq<Infos.ReferenceInfo>>)
    ensures existed <==> referee in tagToInfos
    ensures r == tagToInfos[referee := InfosOf(tagToInfos, referee) + ReferrerRecord(b, referee, referrer)]
  {
    var info := GetReferrerInfo(b, referee, referrer);
    var record := if info.Some? then [info.value] else [];
    if referee !in tagToInfos {
      assert [] + record == record;
      return false, tagToInfos[referee := record];
    }
    return true, tagToInfos[referee := tagToInfos[referee] + record];
  }

  /** The TRUNCATE record `insertTruncatedReferenceInfo` puts on start for the cut node `tag`. */
  function TruncateRecord(tag: int, lengthToStart: int): (x: Infos.ReferenceInfo)
    ensures x.tag == tag && x.kind == PathsResult.TRUNCATE_REFERENCE && x.payload == Infos.WithIndex(lengthToStart)
  {
    Infos.ReferenceInfo(tag, PathsResult.TRUNCATE_REFERENCE, Infos.WithIndex(lengthToStart))
  }

  /**
   * `truncatePath`: a TRUNCATE record for `tag` appended to start's
   * records, whose index is the number of `prevTag` steps from `tag` to
   * start — the tag's distance from start.
   */
  method TruncatePath(prev: map<int, int>, ghost dist: map<int, nat>, start: int, tag: int,
                      tagToInfos: map<int, seq<Infos.ReferenceInfo>>)
    returns (r: map<int, seq<Infos.ReferenceInfo>>)
    requires PrevTree(prev, dist, start) && tag in prev
    ensures dist[tag] == |Chain(prev, dist, start, tag)| - 1
    ensures r == tagToInfos[start := InfosOf(tagToInfos, start) + [TruncateRecord(tag, dist[tag])]]
  {
    var lengthToStart := 0;
    var t := tag;
    var p := prev[t];
    while p != t
      invariant t in prev && p == prev[t] && lengthToStart + dist[t] == dist[tag]
      decreases dist[t]
    {
      t := p;
      p := prev[t];
      lengthToStart := lengthToStart + 1;
    }
    var info := TruncateRecord(tag, lengthToStart);
    if start !in tagToInfos {
      assert [] + [info] == [info];
      return tagToInfos[start := [info]];
    }
    return tagToInfos[start := tagToInfos[start] + [info]];
  }

  /**
   * A record collected for `t` is one of the tag's back-references, or a
   * TRUNCATE record on start whose index is the distance to start of the
   * node it names.
   */
  ghost predicate RecordAllowed(b: BackRefs, prev: map<int, int>, dist: map<int, nat>, start: int,
                                t: int, x: Infos.ReferenceInfo)
  {
    || x in RefsOf(b, t)
    || (t == start && x.kind == PathsResult.TRUNCATE_REFERENCE && x.tag in prev && x.tag in dist
        && x.payload == Infos.WithIndex(dist[x.tag]))
  }

  /** Every collected record is allowed, and only discovered tags have records. */
  ghost predicate InfosAllowed(b: BackRefs, prev: map<int, int>, dist: map<int, nat>, start: int,
                               tagToInfos: map<int, seq<Infos.ReferenceInfo>>)
  {
    && tagToInfos.Keys <= prev.Keys
    && forall t, x :: t in tagToInfos && x in tagToInfos[t] ==> RecordAllowed(b, prev, dist, start, t, x)
  }

  /** Every collected node is discovered and has records. */
  ghost predicate NodesKnown(prev: map<int, int>, nodes: seq<(int, int)>, tagToInfos: map<int, seq<Infos.ReferenceInfo>>) {
    forall i :: 0 <= i < |nodes| ==> nodes[i].0 in prev && nodes[i].0 in tagToInfos
  }

  /** Appending allowed records for a discovered `t` keeps every record allowed. */
  lemma InfosAppend(b: BackRefs, prev: map<int, int>, dist: map<int, nat>, start: int,
                    tagToInfos: map<int, seq<Infos.ReferenceInfo>>, t: int, xs: seq<Infos.ReferenceInfo>)
    requires InfosAllowed(b, prev, dist, start, tagToInfos) && t in prev
    requires forall x :: x in xs ==> RecordAllowed(b, prev, dist, start, t, x)
    ensures InfosAllowed(b, prev, dist, start, tagToInfos[t := InfosOf(tagToInfos, t) + xs])
  {
    var m := tagToInfos[t := InfosOf(tagToInfos, t) + xs];
    forall u, x | u in m && x in m[u] ensures RecordAllowed(b, prev, dist, start, u, x) {
      if u != t {
        assert x in tagToInfos[u];
      } else if x !in xs {
        assert x in InfosOf(tagToInfos, t);
      }
    }
  }

  /** More tags with records keep the nodes known, and so does a node with records. */
  lemma NodesPush(prev: map<int, int>, nodes: seq<(int, int)>, m: map<int, seq<Infos.ReferenceInfo>>,
                  m': map<int, seq<Infos.ReferenceInfo>>, extra: seq<(int, int)>)
    requires NodesKnown(prev, nodes, m) && m.Keys <= m'.Keys
    requires forall i :: 0 <= i < |extra| ==> extra[i].0 in prev && extra[i].0 in m'
    ensures NodesKnown(prev, nodes + extra, m')
  {
    forall i | 0 <= i < |nodes + extra| ensures (nodes + extra)[i].0 in prev && (nodes + extra)[i].0 in m' {
      if i < |nodes| {
        assert (nodes + extra)[i] == nodes[i];
      } else {
        assert (nodes + extra)[i] == extra[i - |nodes|];
      }
    }
  }

  /** The nodes, with their path numbers, and the records `createResultObjectForGcRootsPaths` has collected. */
  datatype Collected = Collected(nodes: seq<(int, int)>, infos: map<int, seq<Infos.ReferenceInfo>>)

  /** The tags, each paired with the path number `num`. */
  function Numbered(tags: seq<int>, num: int): (r: seq<(int, int)>)
    ensures |r| == |tags| && forall i :: 0 <= i < |tags| ==> r[i] == (tags[i], num)
  {
    seq(|tags|, i requires 0 <= i < |tags| => (tags[i], num))
  }

  /** No tag occurs twice. */
  ghost predicate Distinct(tags: seq<int>) {
    forall i, j :: 0 <= i < j < |tags| ==> tags[i] != tags[j]
  }

  /** A chain toward start never meets a tag twice: the distance drops at every step. */
  lemma ChainDistinct(prev: map<int, int>, dist: map<int, nat>, start: int, k: int)
    requires PrevTree(prev, dist, start) && k in prev
    ensures Distinct(Chain(prev, dist, start, k))
  {
    var r := Chain(prev, dist, start, k);
    forall i, j | 0 <= i < j < |r| ensures r[i] != r[j] {
      assert dist[r[i]] == dist[k] - i && dist[r[j]] == dist[k] - j;
    }
  }

  /**
   * The inner loop of `createResultObjectForGcRootsPaths` on the chain of
   * the current tag (`chain[0]`, then its `prevTag` and so on to start),
   * as a function; `recs[k]` is what one step appends to the records of
   * `chain[k + 1]`. At the limit: a TRUNCATE record for the tag on start,
   * whose index is the number of steps to start, and start as node 1 on
   * the first path. At start: nothing more. Otherwise the step's record
   * is appended to `prevTag`'s records, and unless `prevTag` had records
   * the walk goes on from it, numbered `cnt`.
   */
  ghost function Walk(start: int, limit: nat, chain: seq<int>, recs: seq<seq<Infos.ReferenceInfo>>, cnt: int,
                      c: Collected): Collected
    requires |chain| > 0 && |recs| == |chain| - 1
    decreases |chain|
  {
    if |c.nodes| >= limit then
      Collected(c.nodes + (if cnt == 1 then [(start, 1)] else []),
                c.infos[start := InfosOf(c.infos, start) + [TruncateRecord(chain[0], |chain| - 1)]])
    else if |chain| == 1 then c
    else if chain[1] in c.infos then Collected(c.nodes, StepInfos(chain, recs, c.infos))
    else Walk(start, limit, chain[1..], recs[1..], cnt, Collected(c.nodes + [(chain[1], cnt)], StepInfos(chain, recs, c.infos)))
  }

  /** The records after one step of the walk: the step's record appended to those of `chain[1]`. */
  ghost function StepInfos(chain: seq<int>, recs: seq<seq<Infos.ReferenceInfo>>,
                           infos: map<int, seq<Infos.ReferenceInfo>>): (r: map<int, seq<Infos.ReferenceInfo>>)
    requires |chain| > 1 && |recs| == |chain| - 1
    ensures r.Keys == infos.Keys + {chain[1]}
  {
    infos[chain[1] := InfosOf(infos, chain[1]) + recs[0]]
  }

  /** What `insertInfos` appends to the records of `referee`: its back-reference from `referrer`, if any. */
  function ReferrerRecord(b: BackRefs, referee: int, referrer: int): seq<Infos.ReferenceInfo> {
    var info := FirstReferrer(RefsOf(b, referee), referrer);
    if info.Some? then [info.value] else []
  }

  /** The record each step along `chain` appends. */
  function StepRecords(b: BackRefs, chain: seq<int>): (r: seq<seq<Infos.ReferenceInfo>>)
    requires |chain| > 0
    ensures |r| == |chain| - 1
    decreases |chain|
  {
    if |chain| == 1 then [] else [ReferrerRecord(b, chain[1], chain[0])] + StepRecords(b, chain[1..])
  }

  /** The first step's record, then the records of the steps from `chain[1]`. */
  lemma StepRecordsCons(b: BackRefs, chain: seq<int>)
    requires |chain| > 1
    ensures var r := StepRecords(b, chain);
            r[0] == ReferrerRecord(b, chain[1], chain[0]) && r[1..] == StepRecords(b, chain[1..])
  {
    var rest := StepRecords(b, chain[1..]);
    assert ([ReferrerRecord(b, chain[1], chain[0])] + rest)[1..] == rest;
  }

  /**
   * The inner loop of `createResultObjectForGcRootsPaths` from `tag`,
   * following `prevTag`: at the limit a TRUNCATE record for the tag on
   * start, whose index is the tag's distance from start, and start as
   * node 1 on the first path; at start nothing more; otherwise the
   * back-reference of `prevTag` from the tag appended to `prevTag`'s
   * records and, unless `prevTag` had records, the walk from `prevTag`
   * with it as a node numbered `cnt`.
   */
  ghost function WalkFrom(b: BackRefs, prev: map<int, int>, dist: map<int, nat>, start: int, limit: nat,
                          tag: int, cnt: int, c: Collected): Collected
    requires PrevTree(prev, dist, start) && tag in prev
    decreases dist[tag]
  {
    if |c.nodes| >= limit then
      Collected(c.nodes + (if cnt == 1 then [(start, 1)] else []),
                c.infos[start := InfosOf(c.infos, start) + [TruncateRecord(tag, dist[tag])]])
    else if prev[tag] == tag then c
    else
      var p := prev[tag];
      var infos := c.infos[p := InfosOf(c.infos, p) + ReferrerRecord(b, p, tag)];
      if p in c.infos then Collected(c.nodes, infos)
      else WalkFrom(b, prev, dist, start, limit, p, cnt, Collected(c.nodes + [(p, cnt)], infos))
  }

  /** The walk from `tag` is the walk along its chain to start. */
  lemma {:induction false} WalkFromIsWalk(b: BackRefs, prev: map<int, int>, dist: map<int, nat>, start: int, limit: nat,
                                          tag: int, cnt: int, c: Collected)
    requires PrevTree(prev, dist, start) && tag in prev
    ensures var chain := Chain(prev, dist, start, tag);
            WalkFrom(b, prev, dist, start, limit, tag, cnt, c) == Walk(start, limit, chain, StepRecords(b, chain), cnt, c)
    decreases dist[tag]
  {
    var chain := Chain(prev, dist, start, tag);
    if |c.nodes| < limit && tag != start {
      var p := prev[tag];
      var rest := Chain(prev, dist, start, p);
      assert chain == [tag] + rest && chain[1..] == rest;
      StepRecordsCons(b, chain);
      var infos := c.infos[p := InfosOf(c.infos, p) + ReferrerRecord(b, p, tag)];
      if p !in c.infos {
        WalkFromIsWalk(b, prev, dist, start, limit, p, cnt, Collected(c.nodes + [(p, cnt)], infos));
      }
    }
  }

  /** A step's record is one of the referee's back-references. */
  lemma ReferrerRecordIn(b: BackRefs, referee: int, referrer: int)
    ensures forall x :: x in ReferrerRecord(b, referee, referrer) ==> x in RefsOf(b, referee)
  {
    FirstReferrerFinds(RefsOf(b, referee), referrer);
  }

  /** Numbering the tags after the first of a chain slice. */
  lemma NumberedCons(chain: seq<int>, s': nat, cnt: int)
    requires s' + 2 <= |chain|
    ensures Numbered(chain[1..s' + 2], cnt) == [(chain[1], cnt)] + Numbered(chain[1..][1..s' + 1], cnt)
  {
    assert chain[1..s' + 2] == [chain[1]] + chain[1..][1..s' + 1];
  }

  /** How many steps the walk takes, with `n` nodes collected and records for the tags of `known`. */
  ghost function WalkSteps(limit: nat, chain: seq<int>, n: int, known: set<int>): nat
    requires |chain| > 0
    decreases |chain|
  {
    if n >= limit || |chain| == 1 || chain[1] in known then 0
    else 1 + WalkSteps(limit, chain[1..], n + 1, known + {chain[1]})
  }

  /**
   * The walk along a chain of distinct tags, with `n` nodes collected and
   * records for the tags of `known`, takes `s` steps. Each step is below
   * the limit and reaches a tag without records. The walk stops at the
   * limit, at the chain's end (start), or before a tag that has records.
   */
  lemma {:induction false} WalkStops(limit: nat, chain: seq<int>, n: int, known: set<int>)
    requires |chain| > 0 && Distinct(chain)
    ensures var s := WalkSteps(limit, chain, n, known);
            && s < |chain|
            && (s > 0 ==> n + s - 1 < limit)
            && (forall j :: 1 <= j <= s ==> chain[j] !in known)
            && (n + s >= limit || s == |chain| - 1 || chain[s + 1] in known)
    decreases |chain|
  {
    if !(n >= limit || |chain| == 1 || chain[1] in known) {
      var rest := chain[1..];
      assert Distinct(rest) by {
        forall i, j | 0 <= i < j < |rest| ensures rest[i] != rest[j] {
          assert rest[i] == chain[i + 1] && rest[j] == chain[j + 1];
        }
      }
      WalkStops(limit, rest, n + 1, known + {chain[1]});
      var s' := WalkSteps(limit, rest, n + 1, known + {chain[1]});
      forall j | 1 <= j <= s' + 1 ensures chain[j] !in known {
        if j > 1 {
          assert chain[j] == rest[j - 1];
        }
      }
      if !(n + s' + 1 >= limit || s' + 1 == |chain| - 1) {
        assert chain[s' + 2] == rest[s' + 1] && chain[s' + 2] != chain[1];
      }
    }
  }

  /** Regrouping the nodes that one step of a walk adds. */
  lemma AppendNode<T>(nodes: seq<T>, x: T, more: seq<T>, tail: seq<T>)
    ensures nodes + [x] + more + tail == nodes + ([x] + more) + tail
  {
  }

  /**
   * The walk adds the `s` tags it steps to, each numbered `cnt`, and at
   * the limit on the first path also start as node 1.
   */
  lemma {:induction false} WalkNodes(start: int, limit: nat, chain: seq<int>, recs: seq<seq<Infos.ReferenceInfo>>,
                                     cnt: int, c: Collected)
    requires |chain| > 0 && |recs| == |chain| - 1
    ensures var s := WalkSteps(limit, chain, |c.nodes|, c.infos.Keys);
            && s < |chain|
            && Walk(start, limit, chain, recs, cnt, c).nodes
               == c.nodes + Numbered(chain[1..s + 1], cnt) + (if |c.nodes| + s >= limit && cnt == 1 then [(start, 1)] else [])
    decreases |chain|
  {
    if |c.nodes| >= limit || |chain| == 1 || chain[1] in c.infos {
      assert Numbered(chain[1..1], cnt) == [];
    } else {
      var c' := Collected(c.nodes + [(chain[1], cnt)], StepInfos(chain, recs, c.infos));
      WalkNodes(start, limit, chain[1..], recs[1..], cnt, c');
      var s' := WalkSteps(limit, chain[1..], |c'.nodes|, c'.infos.Keys);
      var tail := if |c'.nodes| + s' >= limit && cnt == 1 then [(start, 1)] else [];
      NumberedCons(chain, s', cnt);
      AppendNode(c.nodes, (chain[1], cnt), Numbered(chain[1..][1..s' + 1], cnt), tail);
    }
  }

  /**
   * The walk only appends: tags of the chain after its first, numbered
   * `cnt`, or start as node 1 when `cnt` is 1.
   */
  lemma {:induction false} WalkNodesIn(start: int, limit: nat, chain: seq<int>, recs: seq<seq<Infos.ReferenceInfo>>,
                                       cnt: int, c: Collected)
    requires |chain| > 0 && |recs| == |chain| - 1
    ensures var w := Walk(start, limit, chain, recs, cnt, c);
            && c.nodes <= w.nodes
            && forall k :: |c.nodes| <= k < |w.nodes| ==>
                 (w.nodes[k].0 in chain[1..] && w.nodes[k].1 == cnt) || (w.nodes[k] == (start, 1) && cnt == 1)
    decreases |chain|
  {
    if !(|c.nodes| >= limit || |chain| == 1 || chain[1] in c.infos) {
      var c' := Collected(c.nodes + [(chain[1], cnt)], StepInfos(chain, recs, c.infos));
      WalkNodesIn(start, limit, chain[1..], recs[1..], cnt, c');
      var w := Walk(start, limit, chain, recs, cnt, c);
      forall k | |c.nodes| <= k < |w.nodes|
        ensures (w.nodes[k].0 in chain[1..] && w.nodes[k].1 == cnt) || (w.nodes[k] == (start, 1) && cnt == 1)
      {
        if k == |c.nodes| {
          assert w.nodes[k] == c'.nodes[k] == (chain[1], cnt);
        } else if w.nodes[k].0 in chain[1..][1..] {
          var x := w.nodes[k].0;
          var m :| 0 <= m < |chain[1..][1..]| && chain[1..][1..][m] == x;
          assert chain[1..][m + 1] == x;
        }
      }
    }
  }


  /** The walk from `tag` appends only tags of its chain, numbered `cnt`. */
  lemma WalkFromInChain(b: BackRefs, prev: map<int, int>, dist: map<int, nat>, start: int, limit: nat,
                        tag: int, cnt: int, c: Collected)
    requires PrevTree(prev, dist, start) && tag in prev
    ensures var w := WalkFrom(b, prev, dist, start, limit, tag, cnt, c);
            && c.nodes <= w.nodes
            && forall k :: |c.nodes| <= k < |w.nodes| ==> w.nodes[k].1 == cnt && w.nodes[k].0 in Chain(prev, dist, start, tag)
  {
    var chain := Chain(prev, dist, start, tag);
    WalkFromIsWalk(b, prev, dist, start, limit, tag, cnt, c);
    WalkNodesIn(start, limit, chain, StepRecords(b, chain), cnt, c);
    var w := WalkFrom(b, prev, dist, start, limit, tag, cnt, c);
    forall k | |c.nodes| <= k < |w.nodes| ensures w.nodes[k].1 == cnt && w.nodes[k].0 in chain {
      if w.nodes[k] == (start, 1) {
        assert chain[|chain| - 1] == start;
      }
    }
  }

  /**
   * A walk that stops at the limit leaves as start's last record the
   * TRUNCATE record for the tag reached, whose index is the number of
   * steps from that tag to start.
   */
  lemma {:induction false} WalkTruncates(start: int, limit: nat, chain: seq<int>, recs: seq<seq<Infos.ReferenceInfo>>,
                                         cnt: int, c: Collected)
    requires |chain| > 0 && |recs| == |chain| - 1
    requires |c.nodes| + WalkSteps(limit, chain, |c.nodes|, c.infos.Keys) >= limit
    ensures var s := WalkSteps(limit, chain, |c.nodes|, c.infos.Keys);
            var infos := Walk(start, limit, chain, recs, cnt, c).infos;
            && s < |chain| && start in infos && |infos[start]| > 0
            && infos[start][|infos[start]| - 1] == TruncateRecord(chain[s], |chain| - 1 - s)
    decreases |chain|
  {
    if |c.nodes| < limit {
      var c' := Collected(c.nodes + [(chain[1], cnt)], StepInfos(chain, recs, c.infos));
      WalkTruncates(start, limit, chain[1..], recs[1..], cnt, c');
      var s' := WalkSteps(limit, chain[1..], |c'.nodes|, c'.infos.Keys);
      assert chain[1..][s'] == chain[s' + 1];
    }
  }

  /**
   * The walk from `tag` takes `s` steps along its `prevTag` chain, each to
   * a tag without records; below the limit it stops at start or before a
   * tag that already has records.
   */
  lemma WalkFromStops(prev: map<int, int>, dist: map<int, nat>, start: int, limit: nat, tag: int, c: Collected)
    requires PrevTree(prev, dist, start) && tag in prev
    ensures var chain := Chain(prev, dist, start, tag);
            var s := WalkSteps(limit, chain, |c.nodes|, c.infos.Keys);
            && s <= dist[tag]
            && (forall j :: 1 <= j <= s ==> chain[j] !in c.infos)
            && (|c.nodes| + s < limit ==> s == dist[tag] || chain[s + 1] in c.infos)
  {
    var chain := Chain(prev, dist, start, tag);
    ChainDistinct(prev, dist, start, tag);
    WalkStops(limit, chain, |c.nodes|, c.infos.Keys);
  }

  /**
   * The nodes of the walk from `tag`: the `s` tags of its steps numbered
   * `cnt`, then start numbered 1 if it stopped at the limit on the first
   * path.
   */
  lemma {:induction false} WalkFromNodes(b: BackRefs, prev: map<int, int>, dist: map<int, nat>, start: int, limit: nat,
                                          tag: int, cnt: int, c: Collected)
    requires PrevTree(prev, dist, start) && tag in prev
    ensures var chain := Chain(prev, dist, start, tag);
            var s := WalkSteps(limit, chain, |c.nodes|, c.infos.Keys);
            && s <= dist[tag]
            && WalkFrom(b, prev, dist, start, limit, tag, cnt, c).nodes
               == c.nodes + Numbered(chain[1..s + 1], cnt) + (if |c.nodes| + s >= limit && cnt == 1 then [(start, 1)] else [])
  {
    var chain := Chain(prev, dist, start, tag);
    var recs := StepRecords(b, chain);
    WalkNodes(start, limit, chain, recs, cnt, c);
    WalkFromIsWalk(b, prev, dist, start, limit, tag, cnt, c);
  }

  /**
   * A walk from `tag` that reaches the limit leaves on start, last, a
   * TRUNCATE record whose index is the distance of the tag it reached.
   */
  lemma WalkFromTruncates(b: BackRefs, prev: map<int, int>, dist: map<int, nat>, start: int, limit: nat,
                          tag: int, cnt: int, c: Collected)
    requires PrevTree(prev, dist, start) && tag in prev
    requires |c.nodes| + WalkSteps(limit, Chain(prev, dist, start, tag), |c.nodes|, c.infos.Keys) >= limit
    ensures var s := WalkSteps(limit, Chain(prev, dist, start, tag), |c.nodes|, c.infos.Keys);
            var infos := WalkFrom(b, prev, dist, start, limit, tag, cnt, c).infos;
            && s <= dist[tag] && start in infos && |infos[start]| > 0
            && infos[start][|infos[start]| - 1] == TruncateRecord(Chain(prev, dist, start, tag)[s], dist[tag] - s)
  {
    var chain := Chain(prev, dist, start, tag);
    WalkFromIsWalk(b, prev, dist, start, limit, tag, cnt, c);
    WalkTruncates(start, limit, chain, StepRecords(b, chain), cnt, c);
  }

  /**
   * The outer loop of `createResultObjectForGcRootsPaths` from the root at
   * position `i`, as a function of the inner loop `walk`: while roots are
   * left and fewer than `bound` nodes are collected, the root numbered `i`
   * with its root records, then its walk numbered `i + 1`.
   */
  ghost function AssembleWith(walk: (int, int, Collected) -> Collected, b: BackRefs, roots: seq<int>, bound: nat,
                              i: nat, c: Collected): Collected
    requires i <= |roots|
    decreases |roots| - i
  {
    if i == |roots| || |c.nodes| >= bound then c
    else
      var tag := roots[i];
      AssembleWith(walk, b, roots, bound, i + 1,
                   walk(tag, i + 1, Collected(c.nodes + [(tag, i)], c.infos[tag := InfosOf(c.infos, tag) + RootRecords(RefsOf(b, tag))])))
  }

  /** The inner loop with the limit `limit`, for a discovered tag. */
  ghost function PathWalk(b: BackRefs, prev: map<int, int>, dist: map<int, nat>, start: int, limit: nat): (int, int, Collected) -> Collected
    requires PrevTree(prev, dist, start)
  {
    (tag: int, cnt: int, c: Collected) => if tag in prev then WalkFrom(b, prev, dist, start, limit, tag, cnt, c) else c
  }

  /**
   * The outer loop of `createResultObjectForGcRootsPaths` from the root at
   * position `i`: while roots are left and fewer than `objectsNumber`
   * nodes are collected, the root numbered `i` with its root records,
   * then the inner loop from it numbered `i + 1`, with the limit
   * `objectsNumber - roots.size()` computed in `size_t`.
   */
  ghost function AssembleFrom(b: BackRefs, roots: seq<int>, prev: map<int, int>, dist: map<int, nat>,
                              start: int, objectsNumber: int, i: nat, c: Collected): Collected
    requires PrevTree(prev, dist, start) && i <= |roots|
    decreases |roots| - i
  {
    if i == |roots| || |c.nodes| >= SizeT(objectsNumber) then c
    else
      var tag := roots[i];
      var c1 := Collected(c.nodes + [(tag, i)], c.infos[tag := InfosOf(c.infos, tag) + RootRecords(RefsOf(b, tag))]);
      AssembleFrom(b, roots, prev, dist, start, objectsNumber, i + 1,
                   if tag in prev then WalkFrom(b, prev, dist, start, SizeT(SizeT(objectsNumber) - |roots|), tag, i + 1, c1) else c1)
  }

  /** All the paths `createResultObjectForGcRootsPaths` assembles. */
  ghost function Assemble(b: BackRefs, roots: seq<int>, prev: map<int, int>, dist: map<int, nat>,
                          start: int, objectsNumber: int): Collected
    requires PrevTree(prev, dist, start)
  {
    AssembleFrom(b, roots, prev, dist, start, objectsNumber, 0, Collected([], map[]))
  }

  /** The outer loop is the fold `AssembleWith` over the inner loop. */
  lemma {:induction false} AssembleFromIsWith(b: BackRefs, roots: seq<int>, prev: map<int, int>, dist: map<int, nat>,
                                              start: int, objectsNumber: int, i: nat, c: Collected)
    requires PrevTree(prev, dist, start) && i <= |roots|
    ensures AssembleFrom(b, roots, prev, dist, start, objectsNumber, i, c)
            == AssembleWith(PathWalk(b, prev, dist, start, SizeT(SizeT(objectsNumber) - |roots|)), b, roots,
                            SizeT(objectsNumber), i, c)
    decreases |roots| - i
  {
    if i < |roots| && |c.nodes| < SizeT(objectsNumber) {
      var tag := roots[i];
      var c1 := Collected(c.nodes + [(tag, i)], c.infos[tag := InfosOf(c.infos, tag) + RootRecords(RefsOf(b, tag))]);
      var walk := PathWalk(b, prev, dist, start, SizeT(SizeT(objectsNumber) - |roots|));
      AssembleFromIsWith(b, roots, prev, dist, start, objectsNumber, i + 1, walk(tag, i + 1, c1));
    }
  }

  /**
   * A node and its path number: the root at that position, or a node on
   * the chain of the root one position before.
   */
  ghost predicate OnPath(prev: map<int, int>, dist: map<int, nat>, start: int, roots: seq<int>, bound: nat, node: (int, int)) {
    && PrevTree(prev, dist, start)
    && 0 <= node.1 <= bound <= |roots|
    && ((node.1 < bound && node.0 == roots[node.1])
        || (1 <= node.1 && roots[node.1 - 1] in prev && node.0 in Chain(prev, dist, start, roots[node.1 - 1])))
  }

  /** A walk from a discovered tag only appends nodes. */
  ghost predicate WalkExtends(walk: (int, int, Collected) -> Collected, prev: map<int, int>) {
    forall t: int, n: int, x: Collected :: t in prev ==> x.nodes <= walk(t, n, x).nodes
  }

  /** A walk from a discovered tag only appends tags of its chain, numbered as asked. */
  ghost predicate AppendsChain(walk: (int, int, Collected) -> Collected, prev: map<int, int>, dist: map<int, nat>, start: int) {
    && PrevTree(prev, dist, start)
    && forall t: int, n: int, x: Collected :: t in prev ==>
         forall k :: |x.nodes| <= k < |walk(t, n, x).nodes| ==>
           walk(t, n, x).nodes[k].1 == n && walk(t, n, x).nodes[k].0 in Chain(prev, dist, start, t)
  }

  /** The inner loop appends only tags of the chain it walks. */
  lemma PathWalkAppendsChain(b: BackRefs, prev: map<int, int>, dist: map<int, nat>, start: int, limit: nat)
    requires PrevTree(prev, dist, start)
    ensures WalkExtends(PathWalk(b, prev, dist, start, limit), prev)
    ensures AppendsChain(PathWalk(b, prev, dist, start, limit), prev, dist, start)
  {
    var walk := PathWalk(b, prev, dist, start, limit);
    forall t: int, n: int, x: Collected | t in prev
      ensures x.nodes <= walk(t, n, x).nodes
      ensures forall k :: |x.nodes| <= k < |walk(t, n, x).nodes| ==>
                walk(t, n, x).nodes[k].1 == n && walk(t, n, x).nodes[k].0 in Chain(prev, dist, start, t)
    {
      WalkFromInChain(b, prev, dist, start, limit, t, n, x);
    }
  }

  /** A prefix agrees with the whole sequence at each of its positions. */
  lemma PrefixAt<T>(a: seq<T>, b: seq<T>, k: nat)
    requires a <= b && k < |a|
    ensures b[k] == a[k]
  {
  }

  /** The rest of the outer loop only appends nodes. */
  lemma {:induction false} AssembleWithExtends(walk: (int, int, Collected) -> Collected, b: BackRefs, roots: seq<int>,
                                               prev: map<int, int>, dist: map<int, nat>, start: int, bound: nat,
                                               i: nat, c: Collected)
    requires WalkExtends(walk, prev)
    requires (forall j :: 0 <= j < |roots| ==> roots[j] in prev) && i <= |roots|
    ensures c.nodes <= AssembleWith(walk, b, roots, bound, i, c).nodes
    decreases |roots| - i
  {
    if i < |roots| && |c.nodes| < bound {
      var tag := roots[i];
      var c1 := Collected(c.nodes + [(tag, i)], c.infos[tag := InfosOf(c.infos, tag) + RootRecords(RefsOf(b, tag))]);
      var w := walk(tag, i + 1, c1);
      assert c.nodes <= c1.nodes <= w.nodes;
      AssembleWithExtends(walk, b, roots, prev, dist, start, bound, i + 1, w);
    }
  }

  /** Every node of `nodes` carries its path number as `OnPath` says, for the roots before `bound`. */
  ghost predicate NodesOnPath(prev: map<int, int>, dist: map<int, nat>, start: int, roots: seq<int>, bound: nat,
                              nodes: seq<(int, int)>) {
    forall k :: 0 <= k < |nodes| ==> OnPath(prev, dist, start, roots, bound, nodes[k])
  }

  /** A walk from a discovered tag extends what it is given and appends only tags of its chain, numbered as asked. */
  lemma WalkAt(walk: (int, int, Collected) -> Collected, prev: map<int, int>, dist: map<int, nat>, start: int,
               t: int, n: int, x: Collected)
    requires WalkExtends(walk, prev) && AppendsChain(walk, prev, dist, start) && t in prev
    ensures x.nodes <= walk(t, n, x).nodes
    ensures forall k :: |x.nodes| <= k < |walk(t, n, x).nodes| ==>
              walk(t, n, x).nodes[k].1 == n && walk(t, n, x).nodes[k].0 in Chain(prev, dist, start, t)
  {
  }

  /** The root at position `i` and its walk keep every node on its path, now for the roots up to `i`. */
  lemma WalkOnPath(walk: (int, int, Collected) -> Collected, prev: map<int, int>, dist: map<int, nat>, start: int,
                   roots: seq<int>, i: nat, c: Collected, c1: Collected)
    requires WalkExtends(walk, prev) && AppendsChain(walk, prev, dist, start)
    requires i < |roots| && roots[i] in prev && c1.nodes == c.nodes + [(roots[i], i)]
    requires NodesOnPath(prev, dist, start, roots, i, c.nodes)
    ensures NodesOnPath(prev, dist, start, roots, i + 1, walk(roots[i], i + 1, c1).nodes)
  {
    var w := walk(roots[i], i + 1, c1);
    WalkAt(walk, prev, dist, start, roots[i], i + 1, c1);
    forall k | 0 <= k < |w.nodes| ensures OnPath(prev, dist, start, roots, i + 1, w.nodes[k]) {
      if k < |c1.nodes| {
        PrefixAt(c1.nodes, w.nodes, k);
        if k < |c.nodes| {
          assert w.nodes[k] == c.nodes[k] && OnPath(prev, dist, start, roots, i, c.nodes[k]);
        }
      } else {
        assert w.nodes[k].1 == i + 1 && w.nodes[k].0 in Chain(prev, dist, start, roots[i]);
      }
    }
  }

  /** Nodes on their paths for the roots before `i` are on them for all the roots. */
  lemma NodesOnPathWiden(prev: map<int, int>, dist: map<int, nat>, start: int, roots: seq<int>, i: nat,
                         nodes: seq<(int, int)>)
    requires i <= |roots| && NodesOnPath(prev, dist, start, roots, i, nodes)
    ensures NodesOnPath(prev, dist, start, roots, |roots|, nodes)
  {
    forall k | 0 <= k < |nodes| ensures OnPath(prev, dist, start, roots, |roots|, nodes[k]) {
      assert OnPath(prev, dist, start, roots, i, nodes[k]);
    }
  }

  /**
   * Every node the rest of the outer loop assembles carries its path
   * number: a root the position of that root, any other node one more
   * than the position of the root on whose chain it lies.
   */
  lemma {:induction false} AssembleWithOnPath(walk: (int, int, Collected) -> Collected, b: BackRefs, roots: seq<int>,
                                              prev: map<int, int>, dist: map<int, nat>, start: int, bound: nat,
                                              i: nat, c: Collected)
    requires WalkExtends(walk, prev) && AppendsChain(walk, prev, dist, start)
    requires (forall j :: 0 <= j < |roots| ==> roots[j] in prev) && i <= |roots|
    requires NodesOnPath(prev, dist, start, roots, i, c.nodes)
    ensures NodesOnPath(prev, dist, start, roots, |roots|, AssembleWith(walk, b, roots, bound, i, c).nodes)
    decreases |roots| - i
  {
    if i == |roots| || |c.nodes| >= bound {
      NodesOnPathWiden(prev, dist, start, roots, i, c.nodes);
    } else {
      var tag := roots[i];
      var c1 := Collected(c.nodes + [(tag, i)], c.infos[tag := InfosOf(c.infos, tag) + RootRecords(RefsOf(b, tag))]);
      WalkOnPath(walk, prev, dist, start, roots, i, c, c1);
      AssembleWithOnPath(walk, b, roots, prev, dist, start, bound, i + 1, walk(tag, i + 1, c1));
    }
  }

  /** Every root from position `i` on is in `nodes`, numbered by its position, unless `nodes` reached `bound`. */
  ghost predicate RootsPlaced(roots: seq<int>, i: nat, nodes: seq<(int, int)>, bound: nat) {
    forall j :: i <= j < |roots| ==> (roots[j], j) in nodes || |nodes| >= bound
  }

  /** The root at position `i` in `nodes` extends the roots placed from `i + 1`. */
  lemma RootPlaced(roots: seq<int>, i: nat, nodes: seq<(int, int)>, bound: nat)
    requires i < |roots| && RootsPlaced(roots, i + 1, nodes, bound) && (roots[i], i) in nodes
    ensures RootsPlaced(roots, i, nodes, bound)
  {
  }

  /** Every root from position `i` on is a node numbered by its position, unless the nodes reached `bound`. */
  lemma {:induction false} AssembleWithRoots(walk: (int, int, Collected) -> Collected, b: BackRefs, roots: seq<int>,
                                             prev: map<int, int>, dist: map<int, nat>, start: int, bound: nat,
                                             i: nat, c: Collected)
    requires WalkExtends(walk, prev)
    requires (forall j :: 0 <= j < |roots| ==> roots[j] in prev) && i <= |roots|
    ensures RootsPlaced(roots, i, AssembleWith(walk, b, roots, bound, i, c).nodes, bound)
    decreases |roots| - i
  {
    if i < |roots| && |c.nodes| < bound {
      var tag := roots[i];
      var c1 := Collected(c.nodes + [(tag, i)], c.infos[tag := InfosOf(c.infos, tag) + RootRecords(RefsOf(b, tag))]);
      var w := walk(tag, i + 1, c1);
      AssembleWithRoots(walk, b, roots, prev, dist, start, bound, i + 1, w);
      AssembleWithExtends(walk, b, roots, prev, dist, start, bound, i + 1, w);
      var r := AssembleWith(walk, b, roots, bound, i + 1, w);
      assert r == AssembleWith(walk, b, roots, bound, i, c);
      assert c1.nodes <= w.nodes;
      PrefixAt(c1.nodes, w.nodes, |c.nodes|);
      PrefixAt(w.nodes, r.nodes, |c.nodes|);
      assert r.nodes[|c.nodes|] == (tag, i);
      RootPlaced(roots, i, r.nodes, bound);
    }
  }

  /**
   * The assembled paths: every node carries its path number, and every
   * root found is a node, numbered by its position, unless the nodes
   * reached `objectsNumber`.
   */
  lemma AssemblePathNumbers(b: BackRefs, roots: seq<int>, prev: map<int, int>, dist: map<int, nat>,
                            start: int, objectsNumber: int)
    requires PrevTree(prev, dist, start) && (forall j :: 0 <= j < |roots| ==> roots[j] in prev)
    ensures var r := Assemble(b, roots, prev, dist, start, objectsNumber);
            && (forall k :: 0 <= k < |r.nodes| ==> OnPath(prev, dist, start, roots, |roots|, r.nodes[k]))
            && (forall j :: 0 <= j < |roots| ==> (roots[j], j) in r.nodes || |r.nodes| >= SizeT(objectsNumber))
  {
    var limit := SizeT(SizeT(objectsNumber) - |roots|);
    PathWalkAppendsChain(b, prev, dist, start, limit);
    var walk := PathWalk(b, prev, dist, start, limit);
    AssembleFromIsWith(b, roots, prev, dist, start, objectsNumber, 0, Collected([], map[]));
    AssembleWithOnPath(walk, b, roots, prev, dist, start, SizeT(objectsNumber), 0, Collected([], map[]));
    AssembleWithRoots(walk, b, roots, prev, dist, start, SizeT(objectsNumber), 0, Collected([], map[]));
  }

  /** The inner loop's invariant: what is collected is known and allowed, and extends the nodes before it. */
  ghost predicate WalkKept(b: BackRefs, prev: map<int, int>, dist: map<int, nat>, start: int,
                           nodes0: seq<(int, int)>, nodes: seq<(int, int)>, m: map<int, seq<Infos.ReferenceInfo>>)
  {
    && NodesKnown(prev, nodes, m) && InfosAllowed(b, prev, dist, start, m)
    && |nodes0| <= |nodes| && nodes[..|nodes0|] == nodes0
  }

  /** The limit branch of the inner loop keeps the invariant and ends the walk. */
  lemma LimitKeeps(b: BackRefs, prev: map<int, int>, dist: map<int, nat>, start: int, limit: nat,
                   tag: int, cnt: int, nodes0: seq<(int, int)>, nodes: seq<(int, int)>,
                   m: map<int, seq<Infos.ReferenceInfo>>, walk: Collected)
    requires PrevTree(prev, dist, start) && tag in prev && |nodes| >= limit
    requires WalkKept(b, prev, dist, start, nodes0, nodes, m)
    requires WalkFrom(b, prev, dist, start, limit, tag, cnt, Collected(nodes, m)) == walk
    ensures var extra := if cnt == 1 then [(start, 1)] else [];
            var m' := m[start := InfosOf(m, start) + [TruncateRecord(tag, dist[tag])]];
            WalkKept(b, prev, dist, start, nodes0, nodes + extra, m') && Collected(nodes + extra, m') == walk
  {
    var extra := if cnt == 1 then [(start, 1)] else [];
    var m' := m[start := InfosOf(m, start) + [TruncateRecord(tag, dist[tag])]];
    InfosAppend(b, prev, dist, start, m, start, [TruncateRecord(tag, dist[tag])]);
    NodesPush(prev, nodes, m, m', extra);
    assert (nodes + extra)[..|nodes0|] == nodes[..|nodes0|];
  }

  /** A step of the inner loop to a `prevTag` that had records keeps the invariant and ends the walk. */
  lemma NextEnds(b: BackRefs, prev: map<int, int>, dist: map<int, nat>, start: int, limit: nat,
                 tag: int, cnt: int, nodes0: seq<(int, int)>, nodes: seq<(int, int)>,
                 m: map<int, seq<Infos.ReferenceInfo>>, walk: Collected)
    requires PrevTree(prev, dist, start) && tag in prev && |nodes| < limit && prev[tag] != tag && prev[tag] in m
    requires WalkKept(b, prev, dist, start, nodes0, nodes, m)
    requires WalkFrom(b, prev, dist, start, limit, tag, cnt, Collected(nodes, m)) == walk
    ensures var m' := m[prev[tag] := InfosOf(m, prev[tag]) + ReferrerRecord(b, prev[tag], tag)];
            WalkKept(b, prev, dist, start, nodes0, nodes, m') && Collected(nodes, m') == walk
  {
    var p := prev[tag];
    var m' := m[p := InfosOf(m, p) + ReferrerRecord(b, p, tag)];
    ReferrerRecordIn(b, p, tag);
    InfosAppend(b, prev, dist, start, m, p, ReferrerRecord(b, p, tag));
    NodesPush(prev, nodes, m, m', []);
    assert nodes + [] == nodes;
  }

  /**
   * A step of the inner loop to a `prevTag` without records keeps the
   * invariant with `prevTag` as a node, and leaves the walk from it to do.
   */
  lemma NextGoesOn(b: BackRefs, prev: map<int, int>, dist: map<int, nat>, start: int, limit: nat,
                   tag: int, cnt: int, nodes0: seq<(int, int)>, nodes: seq<(int, int)>,
                   m: map<int, seq<Infos.ReferenceInfo>>, walk: Collected)
    requires PrevTree(prev, dist, start) && tag in prev && |nodes| < limit && prev[tag] != tag && prev[tag] !in m
    requires WalkKept(b, prev, dist, start, nodes0, nodes, m)
    requires WalkFrom(b, prev, dist, start, limit, tag, cnt, Collected(nodes, m)) == walk
    ensures var p := prev[tag];
            var m' := m[p := InfosOf(m, p) + ReferrerRecord(b, p, tag)];
            && p in prev && p in m' && dist[p] < dist[tag]
            && WalkKept(b, prev, dist, start, nodes0, nodes + [(p, cnt)], m')
            && WalkFrom(b, prev, dist, start, limit, p, cnt, Collected(nodes + [(p, cnt)], m')) == walk
  {
    var p := prev[tag];
    var m' := m[p := InfosOf(m, p) + ReferrerRecord(b, p, tag)];
    ReferrerRecordIn(b, p, tag);
    InfosAppend(b, prev, dist, start, m, p, ReferrerRecord(b, p, tag));
    NodesPush(prev, nodes, m, m', [(p, cnt)]);
    assert (nodes + [(p, cnt)])[..|nodes0|] == nodes[..|nodes0|];
  }

  /**
   * One iteration of the outer loop of `createResultObjectForGcRootsPaths`
   * after the root: the walk from `root` toward start along `prevTag`,
   * each node numbered `cnt`, stopping at start, at a node that already
   * has records, or, once `limit` nodes are collected, with a TRUNCATE
   * record on start (and start itself as node 1 when this is the first
   * path).
   */
  method WalkToStart(b: BackRefs, prev: map<int, int>, ghost dist: map<int, nat>, start: int, limit: nat,
                     root: int, cnt: int, nodes: seq<(int, int)>, tagToInfos: map<int, seq<Infos.ReferenceInfo>>)
    returns (nodes': seq<(int, int)>, tagToInfos': map<int, seq<Infos.ReferenceInfo>>)
    requires PrevTree(prev, dist, start)
    requires NodesKnown(prev, nodes, tagToInfos) && InfosAllowed(b, prev, dist, start, tagToInfos)
    requires root in prev && root in tagToInfos
    ensures Collected(nodes', tagToInfos') == WalkFrom(b, prev, dist, start, limit, root, cnt, Collected(nodes, tagToInfos))
    ensures NodesKnown(prev, nodes', tagToInfos') && InfosAllowed(b, prev, dist, start, tagToInfos')
    ensures |nodes| <= |nodes'| && nodes'[..|nodes|] == nodes
  {
    nodes', tagToInfos' := nodes, tagToInfos;
    var tag := root;
    ghost var walk := WalkFrom(b, prev, dist, start, limit, root, cnt, Collected(nodes, tagToInfos));
    assert nodes[..|nodes|] == nodes;
    while true
      invariant WalkKept(b, prev, dist, start, nodes, nodes', tagToInfos')
      invariant tag in prev && tag in tagToInfos'
      invariant WalkFrom(b, prev, dist, start, limit, tag, cnt, Collected(nodes', tagToInfos')) == walk
      decreases dist[tag]
    {
      if |nodes'| >= limit {
        LimitKeeps(b, prev, dist, start, limit, tag, cnt, nodes, nodes', tagToInfos', walk);
        tagToInfos' := TruncatePath(prev, dist, start, tag, tagToInfos');
        nodes' := nodes' + if cnt == 1 then [(start, 1)] else [];
        return;
      }
      var prevTag := prev[tag];
      if prevTag == tag {
        return;
      }
      if prevTag in tagToInfos' {
        NextEnds(b, prev, dist, start, limit, tag, cnt, nodes, nodes', tagToInfos', walk);
      } else {
        NextGoesOn(b, prev, dist, start, limit, tag, cnt, nodes, nodes', tagToInfos', walk);
      }
      var existed;
      existed, tagToInfos' := InsertInfos(b, prevTag, tag, tagToInfos');
      if existed {
        return;
      }
      nodes' := nodes' + [(prevTag, cnt)];
      tag := prevTag;
    }
  }

  /** The outer loop from position `i` on `c` still leads to all the assembled paths. */
  ghost predicate Assembling(b: BackRefs, roots: seq<int>, prev: map<int, int>, dist: map<int, nat>,
                             start: int, objectsNumber: int, i: nat, c: Collected)
    requires PrevTree(prev, dist, start)
  {
    && i <= |roots|
    && AssembleFrom(b, roots, prev, dist, start, objectsNumber, i, c) == Assemble(b, roots, prev, dist, start, objectsNumber)
  }

  /** The outer loop's invariant after `i` roots. */
  ghost predicate PathsKept(b: BackRefs, roots: seq<int>, prev: map<int, int>, dist: map<int, nat>,
                            start: int, objectsNumber: int, i: nat, c: Collected)
    requires PrevTree(prev, dist, start)
  {
    && Assembling(b, roots, prev, dist, start, objectsNumber, i, c)
    && NodesKnown(prev, c.nodes, c.infos) && InfosAllowed(b, prev, dist, start, c.infos)
    && (i > 0 ==> |c.nodes| > 0 && c.nodes[0] == (roots[0], 0))
    && (i == 0 ==> c.nodes == [])
  }

  /** The root of one iteration of the outer loop, with its root records, keeps what is collected known and allowed. */
  lemma RootKeeps(b: BackRefs, roots: seq<int>, prev: map<int, int>, dist: map<int, nat>,
                  start: int, objectsNumber: int, i: nat, c: Collected)
    requires PrevTree(prev, dist, start) && PathsKept(b, roots, prev, dist, start, objectsNumber, i, c)
    requires i < |roots| && roots[i] in prev
    ensures var m := c.infos[roots[i] := InfosOf(c.infos, roots[i]) + RootRecords(RefsOf(b, roots[i]))];
            && NodesKnown(prev, c.nodes + [(roots[i], i)], m) && InfosAllowed(b, prev, dist, start, m) && roots[i] in m
  {
    var tag := roots[i];
    var m := c.infos[tag := InfosOf(c.infos, tag) + RootRecords(RefsOf(b, tag))];
    InfosAppend(b, prev, dist, start, c.infos, tag, RootRecords(RefsOf(b, tag)));
    NodesPush(prev, c.nodes, c.infos, m, [(tag, i)]);
  }

  /** One iteration of the outer loop, the root and then the walk from it, keeps the invariant. */
  lemma AssembleAdvance(b: BackRefs, roots: seq<int>, prev: map<int, int>, dist: map<int, nat>,
                        start: int, objectsNumber: int, i: nat, c: Collected, w: Collected)
    requires PrevTree(prev, dist, start) && PathsKept(b, roots, prev, dist, start, objectsNumber, i, c)
    requires i < |roots| && roots[i] in prev && |c.nodes| < SizeT(objectsNumber)
    requires w == WalkFrom(b, prev, dist, start, SizeT(SizeT(objectsNumber) - |roots|), roots[i], i + 1,
                           Collected(c.nodes + [(roots[i], i)], c.infos[roots[i] := InfosOf(c.infos, roots[i]) + RootRecords(RefsOf(b, roots[i]))]))
    requires NodesKnown(prev, w.nodes, w.infos) && InfosAllowed(b, prev, dist, start, w.infos)
    requires |c.nodes| + 1 <= |w.nodes| && w.nodes[..|c.nodes| + 1] == c.nodes + [(roots[i], i)]
    ensures PathsKept(b, roots, prev, dist, start, objectsNumber, i + 1, w)
  {
    assert w.nodes[0] == w.nodes[..|c.nodes| + 1][0];
  }

  /** The outer loop starts from no nodes and no records. */
  lemma AssembleBegin(b: BackRefs, roots: seq<int>, prev: map<int, int>, dist: map<int, nat>,
                      start: int, objectsNumber: int)
    requires PrevTree(prev, dist, start)
    ensures PathsKept(b, roots, prev, dist, start, objectsNumber, 0, Collected([], map[]))
  {
  }

  /** The outer loop ends with the assembled paths once the roots run out or the nodes reach `objectsNumber`. */
  lemma AssembleDone(b: BackRefs, roots: seq<int>, prev: map<int, int>, dist: map<int, nat>,
                     start: int, objectsNumber: int, i: nat, c: Collected)
    requires PrevTree(prev, dist, start) && PathsKept(b, roots, prev, dist, start, objectsNumber, i, c)
    requires i == |roots| || |c.nodes| >= SizeT(objectsNumber)
    ensures c == Assemble(b, roots, prev, dist, start, objectsNumber)
    ensures NodesKnown(prev, c.nodes, c.infos) && InfosAllowed(b, prev, dist, start, c.infos)
    ensures roots != [] && SizeT(objectsNumber) > 0 ==> |c.nodes| > 0 && c.nodes[0] == (roots[0], 0)
  {
  }

  /**
   * One iteration of the outer loop of `createResultObjectForGcRootsPaths`:
   * the root at position `i` with its root records as node `i`, then its
   * path toward start, numbered `i + 1`.
   */
  method AddPath(b: BackRefs, roots: seq<int>, prev: map<int, int>, ghost dist: map<int, nat>,
                 start: int, objectsNumber: int, i: nat,
                 nodes: seq<(int, int)>, tagToInfos: map<int, seq<Infos.ReferenceInfo>>)
    returns (nodes': seq<(int, int)>, tagToInfos': map<int, seq<Infos.ReferenceInfo>>)
    requires PrevTree(prev, dist, start) && (forall j :: 0 <= j < |roots| ==> roots[j] in prev)
    requires i < |roots| && |nodes| < SizeT(objectsNumber)
    requires PathsKept(b, roots, prev, dist, start, objectsNumber, i, Collected(nodes, tagToInfos))
    ensures PathsKept(b, roots, prev, dist, start, objectsNumber, i + 1, Collected(nodes', tagToInfos'))
  {
    var limit := SizeT(SizeT(objectsNumber) - |roots|);
    var tag := roots[i];
    RootKeeps(b, roots, prev, dist, start, objectsNumber, i, Collected(nodes, tagToInfos));
    tagToInfos' := InsertRootInfos(b, tag, tagToInfos);
    nodes' := nodes + [(tag, i)];
    nodes', tagToInfos' := WalkToStart(b, prev, dist, start, limit, tag, i + 1, nodes', tagToInfos');
    AssembleAdvance(b, roots, prev, dist, start, objectsNumber, i, Collected(nodes, tagToInfos), Collected(nodes', tagToInfos'));
  }

  /**
   * `createResultObjectForGcRootsPaths`'s path assembly: for each root in
   * turn, while fewer than `objectsNumber` nodes are collected, the root
   * with its root records, then its path toward start. The limit
   * `objectsNumber - roots.size()` is computed in `size_t`.
   */
  method AssemblePaths(b: BackRefs, roots: seq<int>, prev: map<int, int>, ghost dist: map<int, nat>,
                       start: int, objectsNumber: int)
    returns (nodes: seq<(int, int)>, tagToInfos: map<int, seq<Infos.ReferenceInfo>>)
    requires PrevTree(prev, dist, start)
    requires forall i :: 0 <= i < |roots| ==> roots[i] in prev
    ensures Collected(nodes, tagToInfos) == Assemble(b, roots, prev, dist, start, objectsNumber)
    ensures NodesKnown(prev, nodes, tagToInfos) && InfosAllowed(b, prev, dist, start, tagToInfos)
    ensures roots != [] && SizeT(objectsNumber) > 0 ==> |nodes| > 0 && nodes[0] == (roots[0], 0)
  {
    nodes := [];
    tagToInfos := map[];
    var i := 0;
    AssembleBegin(b, roots, prev, dist, start, objectsNumber);
    while i < |roots| && |nodes| < SizeT(objectsNumber)
      invariant 0 <= i <= |roots|
      invariant PathsKept(b, roots, prev, dist, start, objectsNumber, i, Collected(nodes, tagToInfos))
    {
      nodes, tagToInfos := AddPath(b, roots, prev, dist, start, objectsNumber, i, nodes, tagToInfos);
      i := i + 1;
    }
    AssembleDone(b, roots, prev, dist, start, objectsNumber, i, Collected(nodes, tagToInfos));
  }

  /** Every tag of `objectToTag` has collected records. */
  lemma SortedTagsHaveInfos(h: PathsToClosestGcRoots.Heap, objs: seq<ObjId>, prev: map<int, int>,
                            nodes: seq<(int, int)>, tagToInfos: map<int, seq<Infos.ReferenceInfo>>)
    requires NodesKnown(prev, nodes, tagToInfos)
    ensures var objectToTag := PathsResult.SortByPath(PathsResult.GetObjectToTag(h, objs, PathsResult.NodeTags(nodes)),
                                                     PathsResult.TagToPathNumber(nodes));
            forall i :: 0 <= i < |objectToTag| ==> objectToTag[i].1 in tagToInfos
  {
    var xs := PathsResult.GetObjectToTag(h, objs, PathsResult.NodeTags(nodes));
    var objectToTag := PathsResult.SortByPath(xs, PathsResult.TagToPathNumber(nodes));
    forall i | 0 <= i < |objectToTag| ensures objectToTag[i].1 in tagToInfos {
      assert objectToTag[i] in multiset(xs);
      var j :| 0 <= j < |nodes| && PathsResult.NodeTags(nodes)[j] == objectToTag[i].1;
    }
  }

  /** Every object of `GetObjectToTag` for start alone carries a tag with back-references. */
  lemma StartTagsHaveInfos(h: PathsToClosestGcRoots.Heap, objs: seq<ObjId>, start: int)
    requires PathsToClosestGcRoots.Valid(h)
    ensures var objectToTag := PathsResult.GetObjectToTag(h, objs, [start]);
            forall i :: 0 <= i < |objectToTag| ==> objectToTag[i].1 == start && start in PathsResult.BackRefsOf(h)
  {
    var objectToTag := PathsResult.GetObjectToTag(h, objs, [start]);
    forall i | 0 <= i < |objectToTag| ensures objectToTag[i].1 == start && start in PathsResult.BackRefsOf(h) {
      assert objectToTag[i] in objectToTag;
      var o := objectToTag[i].0;
      assert start != 0 && PathsToClosestGcRoots.TagOf(h, o) == start;
      assert o in h.slots && h.slots[o] in h.store;
    }
  }

  /**
   * The answer `collectPathsToClosestGcRoots` gives once the search found
   * `found` over the tree `prev`: with no root, the start object alone
   * with its own back-references; otherwise the assembled paths, their
   * objects sorted by path number, with the collected records. The objects
   * are fetched with the corrected request of `getSortedObjectToTag`: the
   * node tags alone, without the leading zeros the source puts first.
   */
  ghost function PathsAnswer(h: PathsToClosestGcRoots.Heap, objs: seq<ObjId>, start: int, objectsNumber: int,
                             found: seq<int>, prev: map<int, int>, dist: map<int, nat>): PathsResult.Answer
    requires PrevTree(prev, dist, start)
  {
    var b := PathsResult.BackRefsOf(h);
    if found == [] then PathsResult.ResultObject(PathsResult.GetObjectToTag(h, objs, [start]), b, h)
    else
      var c := Assemble(b, found, prev, dist, start, objectsNumber);
      PathsResult.ResultObject(PathsResult.SortByPath(PathsResult.GetObjectToTag(h, objs, PathsResult.NodeTags(c.nodes)),
                                                      PathsResult.TagToPathNumber(c.nodes)),
                               c.infos, h)
  }

  /**
   * `collectPathsToClosestGcRoots`: the search, then the empty array if a
   * cancellation check says stop, the start object alone with its own
   * back-references if no root is found, or else the assembled paths,
   * fetched with the corrected node-tag request (see `PathsAnswer`).
   * `search` and `dist` are the search's result and the tree's distances.
   */
  method CollectPathsToClosestGcRoots(h: PathsToClosestGcRoots.Heap, objs: seq<ObjId>, start: int,
                                      number: int, objectsNumber: int, stops: seq<bool>)
    returns (r: PathsResult.Answer, checks: nat, ghost search: Search, ghost dist: map<int, nat>)
    requires PathsToClosestGcRoots.Valid(h)
    ensures forall k :: 0 <= k < checks ==> !StopAnswer(stops, k)
    ensures r.EmptyArray? <==> StopAnswer(stops, checks)
    ensures search.Stopped? <==> StopAnswer(stops, checks)
    ensures search.Search? ==>
              && Discovered(PathsResult.BackRefsOf(h), start, search.prev, dist)
              && RootsFound(PathsResult.BackRefsOf(h), search.prev, dist, search.found, set x | x in search.found)
              && |search.found| <= SizeT(number)
              && r == PathsAnswer(h, objs, start, objectsNumber, search.found, search.prev, dist)
    ensures PathsResult.WellLinked(r)
  {
    var b := PathsResult.BackRefsOf(h);
    var result;
    result, dist, checks := CollectRoots(b, start, number, stops);
    search := result;
    if result.Stopped? {
      return PathsResult.EmptyArray, checks, search, dist;
    }
    if result.found == [] {
      var objectToTag := PathsResult.GetObjectToTag(h, objs, [start]);
      StartTagsHaveInfos(h, objs, start);
      r := PathsResult.CreateResultObject(objectToTag, b, h);
      PathsResult.ResultWellLinked(objectToTag, b, h, r);
    } else {
      var nodes, tagToInfos := AssemblePaths(b, result.found, result.prev, dist, start, objectsNumber);
      var objectToTag := PathsResult.GetSortedObjectToTag(h, objs, nodes);
      SortedTagsHaveInfos(h, objs, result.prev, nodes, tagToInfos);
      r := PathsResult.CreateResultObject(objectToTag, tagToInfos, h);
      PathsResult.ResultWellLinked(objectToTag, tagToInfos, h, r);
    }
  }

  /** The answers after the first check are those of the remaining calls. */
  function LaterStops(stops: seq<bool>): (r: seq<bool>)
    ensures forall k: nat :: StopAnswer(r, k) == StopAnswer(stops, k + 1)
  {
    if stops == [] then [] else stops[1..]
  }

  /**
   * `executeOperation`: the tags are created (reference classes, the
   * target, the traversal), then one cancellation check, then the paths
   * are collected from the target's tag, with the corrected node-tag
   * request of `PathsAnswer`.
   */
  method ExecuteOperation(agent: PathsToClosestGcRoots.PathsAgent, classes: seq<ObjId>, assignable: (int, ObjId) -> bool,
                          target: ObjId, edges: seq<(Edge, int, Infos.HeapReferenceInfo)>, objs: seq<ObjId>,
                          pathsNumber: int, objectsNumber: int, stops: seq<bool>)
    returns (r: PathsResult.Answer, checks: nat, ghost start: int, ghost search: Search, ghost dist: map<int, nat>)
    requires PathsToClosestGcRoots.Valid(agent.Snapshot())
    modifies agent
    ensures agent.Snapshot() == PathsToClosestGcRoots.FollowAll(
              PathsToClosestGcRoots.StartTagged(PathsToClosestGcRoots.ReferenceTagged(old(agent.Snapshot()), classes, assignable), target),
              edges)
    ensures start == old(agent.next)
    ensures forall k :: 0 <= k < checks ==> !StopAnswer(stops, k)
    ensures r.EmptyArray? <==> StopAnswer(stops, checks)
    ensures checks > 0 && search.Search? ==>
              && Discovered(PathsResult.BackRefsOf(agent.Snapshot()), start, search.prev, dist)
              && r == PathsAnswer(agent.Snapshot(), objs, start, objectsNumber, search.found, search.prev, dist)
    ensures PathsResult.WellLinked(r)
  {
    var tag := agent.CreateTags(classes, assignable, target, edges);
    start := tag;
    if StopAnswer(stops, 0) {
      return PathsResult.EmptyArray, 0, start, Stopped, map[];
    }
    var later;
    r, later, search, dist := CollectPathsToClosestGcRoots(agent.Snapshot(), objs, tag, pathsNumber, objectsNumber, LaterStops(stops));
    checks := later + 1;
    forall k | 0 <= k < checks ensures !StopAnswer(stops, k) {
      if k > 0 {
        assert StopAnswer(LaterStops(stops), k - 1) == StopAnswer(stops, k);
      }
    }
  }
}
