/**
 * The retained size of one object together with the objects it holds.
 *
 * The query object gets a start tag of query 0, the usual `tagHeap` phases
 * spread the query's state, and a heap iteration over the tagged objects
 * adds every retained object's size and leaves `HeldObjectTag` on the
 * objects that query 0 retains; everything else ends untagged. The held
 * objects are then the ones `GetObjectsWithTags` finds with that tag.
 */
module RetainedSizeAndHeldObjects {
  import opened Jvmti
  import opened SizesState
  import opened TagInfoArrays
  import opened SizesTags
  import opened SizesCallbacks
  import opened SizesPhases
  import Counting

  /** The state of the query object: start and in-subtree set, reachable-outside and visited clear. */
  const QueryState: State := CreateState(true, true, false, false)

  /** How many entries of a tag's array are retained. */
  function RetainedCount(es: seq<TagInfo>): (n: nat)
    ensures n <= |es|
    ensures n > 0 <==> exists i :: 0 <= i < |es| && IsRetained(es[i].state)
  {
    if es == [] then 0
    else
      var last := |es| - 1;
      assert forall i :: 0 <= i < last ==> es[..last][i] == es[i];
      RetainedCount(es[..last]) + if IsRetained(es[last].state) then 1 else 0
  }

  /** The entries of an object's tag as the iteration sees them; an untagged object has none. */
  function Entries(h: Heap, o: ObjId): seq<TagInfo> {
    if o in h.slots && h.slots[o] != NO_TAG && h.slots[o] in h.engine.store.tags
    then h.engine.store.tags[h.slots[o]].entries else []
  }

  /** What `countSizeAndRetagHeldObjects` leaves in a tagged object's slot. */
  function HeldTag(es: seq<TagInfo>): (t: int)
    ensures t == HELD_OBJECT_TAG <==> exists i :: 0 <= i < |es| && IsRetained(es[i].state)
    ensures t == HELD_OBJECT_TAG || t == NO_TAG
  {
    if RetainedCount(es) > 0 then HELD_OBJECT_TAG else NO_TAG
  }

  /**
   * `countSizeAndRetagHeldObjects` on one object: an untagged object is
   * skipped; a tagged one releases its tag once and ends with
   * `HeldObjectTag` when some entry is retained and untagged otherwise.
   */
  function CountObject(h: Heap, o: ObjId): (r: Heap)
    requires HeapValid(h) && o in h.slots
    ensures HeapValid(r) && r.slots.Keys == h.slots.Keys && r.engine.store.queries == h.engine.store.queries
    ensures h.slots[o] == NO_TAG ==> r == h
    ensures h.slots[o] != NO_TAG ==>
              r.engine.store == AfterUnref(h.engine.store, h.slots[o])
              && r.slots[o] == HeldTag(Entries(h, o))
    ensures forall p :: p in h.slots && p != o ==> r.slots[p] == h.slots[p]
  {
    var t := h.slots[o];
    if t == NO_TAG then h
    else
      var s := h.engine.store;
      assert Live(s, t);
      var t2 := HeldTag(s.tags[t].entries);
      UnrefValid(s, t);
      UnrefAccounted(s, t, t2);
      SlotUpdate(s, AfterUnref(s, t), h.slots, o, t2);
      Heap(h.engine.(store := AfterUnref(s, t)), h.slots[o := t2])
  }

  /** The size added for a tag's entries: `size` once per retained entry. */
  function RetainedSize(es: seq<TagInfo>, size: int): (n: int)
    ensures size >= 0 ==> n >= 0
    ensures RetainedCount(es) == 0 ==> n == 0
    ensures RetainedCount(es) == 1 ==> n == size
  {
    if es == [] then 0
    else
      var last := |es| - 1;
      RetainedSize(es[..last], size) + if IsRetained(es[last].state) then size else 0
  }

  /** What one object adds to the retained size. */
  function Added(h: Heap, o: HeapObject): int {
    RetainedSize(Entries(h, o.id), o.size)
  }

  /** The heap iteration with `countSizeAndRetagHeldObjects`: the heap after it and the accumulated size. */
  function CountAll(h: Heap, objects: seq<HeapObject>): (r: (Heap, int))
    requires HeapValid(h) && forall i :: 0 <= i < |objects| ==> ObjectIn(objects[i], h.slots)
    ensures HeapValid(r.0) && r.0.slots.Keys == h.slots.Keys && r.0.engine.store.queries == h.engine.store.queries
    decreases |objects|
  {
    if objects == [] then (h, 0)
    else
      assert ObjectIn(objects[0], h.slots);
      var h2 := CountObject(h, objects[0].id);
      assert forall i :: 0 <= i < |objects[1..]| ==> ObjectIn(objects[1..][i], h2.slots) by {
        forall i | 0 <= i < |objects[1..]| ensures ObjectIn(objects[1..][i], h2.slots) {
          assert ObjectIn(objects[i + 1], h.slots);
        }
      }
      var rest := CountAll(h2, objects[1..]);
      (rest.0, Added(h, objects[0]) + rest.1)
  }

  /** One step of the counting iteration: the first object, then the rest. */
  lemma CountAllFirst(h: Heap, objects: seq<HeapObject>)
    requires HeapValid(h) && objects != [] && forall i :: 0 <= i < |objects| ==> ObjectIn(objects[i], h.slots)
    ensures objects[0].id in h.slots
    ensures var h2 := CountObject(h, objects[0].id);
            (forall i :: 0 <= i < |objects[1..]| ==> ObjectIn(objects[1..][i], h2.slots))
            && CountAll(h, objects).0 == CountAll(h2, objects[1..]).0
            && CountAll(h, objects).1 == Added(h, objects[0]) + CountAll(h2, objects[1..]).1
  {
    assert ObjectIn(objects[0], h.slots);
    var h2 := CountObject(h, objects[0].id);
    forall i | 0 <= i < |objects[1..]| ensures ObjectIn(objects[1..][i], h2.slots) {
      assert ObjectIn(objects[i + 1], h.slots);
    }
  }

  /** Each object is reported once. */
  predicate Distinct(objects: seq<HeapObject>) {
    forall i, j :: 0 <= i < j < |objects| ==> objects[i].id != objects[j].id
  }

  /** The size the iteration should find: every object's contribution on the heap before it. */
  function Expected(h: Heap, objects: seq<HeapObject>): (n: int)
    ensures (forall i :: 0 <= i < |objects| ==> objects[i].size >= 0) ==> n >= 0
    decreases |objects|
  {
    if objects == [] then 0
    else
      assert forall i :: 0 <= i < |objects[1..]| ==> objects[1..][i] == objects[i + 1];
      Added(h, objects[0]) + Expected(h, objects[1..])
  }

  /** Releasing one object's tag leaves the entries of every other object as they were. */
  lemma CountObjectKeepsOthers(h: Heap, o: ObjId, p: ObjId)
    requires HeapValid(h) && o in h.slots && p in h.slots && p != o
    ensures Entries(CountObject(h, o), p) == Entries(h, p)
  {
    var r := CountObject(h, o);
    var t := h.slots[o];
    var s := h.engine.store;
    var b := h.slots[p];
    if t != NO_TAG && b != NO_TAG {
      assert Live(s, b) && Live(s, t);
      if b == t && !IsStatic(t) {
        assert {o, p} <= Holders(h.slots, t);
        Counting.SubsetCard({o, p}, Holders(h.slots, t));
        assert RefCount(s, t) >= 2;
      }
    }
  }

  /** Objects with the same entries on two heaps are expected to contribute the same. */
  lemma {:induction false} ExpectedSame(h: Heap, h2: Heap, objects: seq<HeapObject>)
    requires forall i :: 0 <= i < |objects| ==> Entries(h2, objects[i].id) == Entries(h, objects[i].id)
    ensures Expected(h2, objects) == Expected(h, objects)
    decreases |objects|
  {
    if objects != [] {
      assert Entries(h2, objects[0].id) == Entries(h, objects[0].id);
      assert forall i :: 0 <= i < |objects[1..]| ==> objects[1..][i] == objects[i + 1];
      ExpectedSame(h, h2, objects[1..]);
    }
  }

  /**
   * One step over distinct objects: the rest are still distinct and untouched
   * by the first object's release, in their slots and in their entries.
   */
  lemma CountAllStep(h: Heap, objects: seq<HeapObject>)
    requires HeapValid(h) && objects != [] && (forall i :: 0 <= i < |objects| ==> ObjectIn(objects[i], h.slots))
    requires Distinct(objects)
    ensures objects[0].id in h.slots
    ensures var h2 := CountObject(h, objects[0].id);
            var rest := objects[1..];
            HeapValid(h2) && (forall i :: 0 <= i < |rest| ==> ObjectIn(rest[i], h2.slots)) && Distinct(rest)
            && (forall i :: 0 <= i < |rest| ==>
                  rest[i].id != objects[0].id && h2.slots[rest[i].id] == h.slots[rest[i].id]
                  && Entries(h2, rest[i].id) == Entries(h, rest[i].id))
  {
    var o := objects[0].id;
    var rest := objects[1..];
    CountAllFirst(h, objects);
    forall i | 0 <= i < |rest|
      ensures rest[i].id != o && Entries(CountObject(h, o), rest[i].id) == Entries(h, rest[i].id)
    {
      assert rest[i] == objects[i + 1] && ObjectIn(objects[i + 1], h.slots);
      CountObjectKeepsOthers(h, o, rest[i].id);
    }
    assert Distinct(rest) by {
      forall i, j | 0 <= i < j < |rest| ensures rest[i].id != rest[j].id {
        assert rest[i] == objects[i + 1] && rest[j] == objects[j + 1];
      }
    }
  }

  /**
   * Over distinct objects, the accumulated size is what every object's own
   * tag on the heap before the iteration retains: no object sees a tag
   * another object released.
   */
  lemma {:induction false} CountAllTotal(h: Heap, objects: seq<HeapObject>)
    requires HeapValid(h) && (forall i :: 0 <= i < |objects| ==> ObjectIn(objects[i], h.slots)) && Distinct(objects)
    ensures CountAll(h, objects).1 == Expected(h, objects)
    decreases |objects|
  {
    if objects != [] {
      var h2 := CountObject(h, objects[0].id);
      CountAllFirst(h, objects);
      CountAllStep(h, objects);
      CountAllTotal(h2, objects[1..]);
      ExpectedSame(h, h2, objects[1..]);
    }
  }

  /** The slot an object should end with: held when it was tagged and some entry is retained. */
  function Outcome(h: Heap, o: ObjId): int
    requires o in h.slots
  {
    if h.slots[o] == NO_TAG then NO_TAG else HeldTag(Entries(h, o))
  }

  /**
   * After the iteration over distinct objects, each of them holds
   * `HeldObjectTag` exactly when its tag had a retained entry and is
   * untagged otherwise.
   */
  lemma {:induction false} CountAllRetags(h: Heap, objects: seq<HeapObject>)
    requires HeapValid(h) && (forall i :: 0 <= i < |objects| ==> ObjectIn(objects[i], h.slots)) && Distinct(objects)
    ensures var r := CountAll(h, objects).0;
            forall i :: 0 <= i < |objects| ==> r.slots[objects[i].id] == Outcome(h, objects[i].id)
    decreases |objects|
  {
    if objects != [] {
      var h2 := CountObject(h, objects[0].id);
      var rest := objects[1..];
      CountAllFirst(h, objects);
      CountAllStep(h, objects);
      CountAllRetags(h2, rest);
      CountAllKeeps(h2, rest);
      assert forall i :: 0 < i < |objects| ==> objects[i] == rest[i - 1];
    }
  }

  /** The iteration leaves the slot of every object it was not given as it was. */
  lemma {:induction false} CountAllKeeps(h: Heap, objects: seq<HeapObject>)
    requires HeapValid(h) && (forall i :: 0 <= i < |objects| ==> ObjectIn(objects[i], h.slots))
    ensures var r := CountAll(h, objects).0;
            forall p :: p in h.slots && (forall i :: 0 <= i < |objects| ==> objects[i].id != p) ==>
              r.slots[p] == h.slots[p]
    decreases |objects|
  {
    if objects != [] {
      var h2 := CountObject(h, objects[0].id);
      var rest := objects[1..];
      CountAllFirst(h, objects);
      CountAllKeeps(h2, rest);
      assert forall i :: 0 <= i < |rest| ==> rest[i] == objects[i + 1];
    }
  }

  /** `GetObjectsWithTags` for `HeldObjectTag`: the held objects, in iteration order. */
  function HeldObjects(slots: map<ObjId, int>, objects: seq<HeapObject>): (r: seq<ObjId>)
    ensures forall x :: x in r <==> exists i :: 0 <= i < |objects| && objects[i].id == x
                                                && x in slots && slots[x] == HELD_OBJECT_TAG
    decreases |objects|
  {
    if objects == [] then []
    else
      var rest := HeldObjects(slots, objects[1..]);
      assert forall i :: 0 <= i < |objects[1..]| ==> objects[1..][i] == objects[i + 1];
      var o := objects[0].id;
      if o in slots && slots[o] == HELD_OBJECT_TAG then [o] + rest else rest
  }

  /** Putting a fresh start tag of query 0 into one slot, without releasing what it held. */
  function SetStartTag(h: Heap, o: ObjId): (r: Heap)
    requires HeapValid(h) && o in h.slots && h.engine.store.queries >= 1
    ensures HeapValid(r) && r.slots.Keys == h.slots.Keys && r.engine.store.queries == h.engine.store.queries
    ensures r.slots[o] >= FIRST_HEAP_TAG && r.slots[o] !in h.engine.store.tags
    ensures r.engine.store.tags == h.engine.store.tags[r.slots[o] := StartRec(0, QueryState)]
    ensures forall p :: p in h.slots && p != o ==> r.slots[p] == h.slots[p]
    ensures r.engine.newInfo == h.engine.newInfo
  {
    var m := AfterCreate(h.engine.store, 0, QueryState);
    CreateValid(h.engine.store, 0, QueryState, 0);
    AddValid(h.engine.store, StartRec(0, QueryState));
    SetTagValid(h, m, o);
    Heap(h.engine.(store := m.store), h.slots[o := m.tag])
  }

  /** The query object's start tag: a single entry of index 0 that is a start of its subtree and nothing else. */
  lemma StartTagShape(h: Heap, o: ObjId)
    requires HeapValid(h) && o in h.slots && h.engine.store.queries >= 1
    ensures var r := SetStartTag(h, o);
            var es := r.engine.store.tags[r.slots[o]].entries;
            |es| == 1 && es[0].index == 0
            && IsStartObject(es[0].state) && IsInSubtree(es[0].state)
            && !IsReachableOutside(es[0].state) && !IsAlreadyVisited(es[0].state)
            && IsRetained(es[0].state)
  {
  }

  /** `retagStartObject`: only an object still marked `TagWithNewInfo` gets a fresh start tag. */
  function RetagStartObject(h: Heap, o: ObjId): (r: Heap)
    requires HeapValid(h) && o in h.slots && h.engine.store.queries >= 1
    ensures HeapValid(r) && r.slots.Keys == h.slots.Keys && r.engine.store.queries == h.engine.store.queries
    ensures h.slots[o] != TAG_WITH_NEW_INFO ==> r == h
    ensures h.slots[o] == TAG_WITH_NEW_INFO ==>
              r.slots[o] != TAG_WITH_NEW_INFO && r.slots[o] in r.engine.store.tags
              && r.engine.store.tags[r.slots[o]] == StartRec(0, QueryState)
  {
    if h.slots[o] == TAG_WITH_NEW_INFO then SetStartTag(h, o) else h
  }

  /**
   * `tagHeap` of this action: the new-information pass, the collection of
   * `TagWithNewInfo` objects, `retagStartObject` on the query object, the
   * visiting pass and the walks from the collected objects, each phase
   * followed by a stop check (`checks[k]`).
   */
  function TagHeapForObject(h: Heap, o: ObjId, r: Reports, c: Clock, checks: seq<bool>): (res: (Heap, AgentError))
    requires HeapValid(h) && ReportsIn(h.slots, r, c) && o in h.slots && h.engine.store.queries >= 1 && |checks| == 4
    ensures HeapValid(res.0) && res.0.slots.Keys == h.slots.Keys && res.0.engine.store.queries == h.engine.store.queries
    ensures res.1 == NoError || res.1 == Timeout
    ensures true in checks ==> res.1 == Timeout
    ensures res.1 == Timeout ==> true in checks || true in c.late
  {
    assert checks == [checks[0], checks[1], checks[2], checks[3]];
    var h1 := FollowAll(h, GetTagsWithNewInfoPass, r.newInfoEdges, c.newInfoStops).heap;
    ReportsKept(h.slots, h1.slots, r, c);
    if checks[0] then (h1, Timeout)
    else if checks[1] then (h1, Timeout)
    else
      var h2 := RetagStartObject(h1, o);
      if checks[2] then (h2, Timeout)
      else VisitAndWalk(h1, h2, r, c, checks[3])
  }

  /** The answers of one call: the stop checks of the seven phase boundaries. */
  predicate ChecksFit(checks: seq<bool>) {
    |checks| == 7
  }

  /** The heap, the query object and the reports fit one call on a heap with one query. */
  ghost predicate Ready(h: Heap, o: ObjId, r: Reports, c: Clock) {
    HeapValid(h) && ReportsIn(h.slots, r, c) && o in h.slots && h.engine.store.queries == 1 && Distinct(r.objects)
  }

  /**
   * What `estimateObjectSize` leaves: the heap, the error, the retained
   * size (`None` while the counting phase has not run, the variable being
   * uninitialised then) and the held objects (empty unless the last phase
   * ran).
   */
  datatype Estimate = Estimate(heap: Heap, err: AgentError, retained: Option<int>, held: seq<ObjId>)

  /** The tag of a tagged object has an entry that is retained. */
  predicate Holds(h: Heap, x: ObjId) {
    x in h.slots && h.slots[x] != NO_TAG && exists k :: 0 <= k < |Entries(h, x)| && IsRetained(Entries(h, x)[k].state)
  }

  /** Some reported object is `x`. */
  predicate Reported(objects: seq<HeapObject>, x: ObjId) {
    exists i :: 0 <= i < |objects| && objects[i].id == x
  }

  /**
   * After the counting iteration over distinct objects, the held objects
   * `GetObjectsWithTags` finds are exactly the reported objects whose tag had
   * a retained entry.
   */
  lemma CountAllHeld(h: Heap, objects: seq<HeapObject>)
    requires HeapValid(h) && (forall i :: 0 <= i < |objects| ==> ObjectIn(objects[i], h.slots)) && Distinct(objects)
    ensures forall x :: x in HeldObjects(CountAll(h, objects).0.slots, objects) <==> Reported(objects, x) && Holds(h, x)
  {
    var h2 := CountAll(h, objects).0;
    CountAllRetags(h, objects);
    forall x ensures x in HeldObjects(h2.slots, objects) <==> Reported(objects, x) && Holds(h, x) {
      if x in HeldObjects(h2.slots, objects) {
        var i :| 0 <= i < |objects| && objects[i].id == x && x in h2.slots && h2.slots[x] == HELD_OBJECT_TAG;
        assert h2.slots[x] == Outcome(h, x);
      }
      if Reported(objects, x) && Holds(h, x) {
        var i :| 0 <= i < |objects| && objects[i].id == x;
        assert h2.slots[x] == Outcome(h, x) == HELD_OBJECT_TAG;
      }
    }
  }

  /**
   * The last two phases of `estimateObjectSize` on the tagged heap `h1`:
   * the counting iteration, the stop check after it (`stop`) and the
   * collection of the held objects.
   */
  function CountAndCollect(h1: Heap, r: Reports, stop: bool): (res: Estimate)
    requires HeapValid(h1) && forall i :: 0 <= i < |r.objects| ==> ObjectIn(r.objects[i], h1.slots)
    ensures res.retained.Some? && (res.err == Timeout <==> stop) && (res.err == NoError <==> !stop)
    ensures res.err != NoError ==> res.held == []
  {
    var counted := CountAll(h1, r.objects);
    if stop then Estimate(counted.0, Timeout, Some(counted.1), [])
    else Estimate(counted.0, NoError, Some(counted.1), HeldObjects(counted.0.slots, r.objects))
  }

  /**
   * Without a stop the retained size is what the start object's query
   * retains on the tagged heap, counted once per retained entry, it is
   * non-negative when sizes are, and the held objects are exactly the
   * reported objects whose tag had a retained entry.
   */
  lemma CountAndCollectResult(h1: Heap, r: Reports)
    requires HeapValid(h1) && (forall i :: 0 <= i < |r.objects| ==> ObjectIn(r.objects[i], h1.slots)) && Distinct(r.objects)
    ensures var res := CountAndCollect(h1, r, false);
            res.retained == Some(Expected(h1, r.objects))
            && ((forall i :: 0 <= i < |r.objects| ==> r.objects[i].size >= 0) ==> res.retained.value >= 0)
            && forall x :: x in res.held <==> Reported(r.objects, x) && Holds(h1, x)
  {
    CountAllTotal(h1, r.objects);
    CountAllHeld(h1, r.objects);
  }

  /**
   * `estimateObjectSize`: the start tag, `tagHeap`, the counting iteration
   * over the tagged objects and the collection of the held objects, with
   * `checks[0]` after the start tag, `checks[1..5]` inside `tagHeap`,
   * `checks[5]` after it and `checks[6]` after the counting.
   */
  function EstimateObjectSize(h: Heap, o: ObjId, r: Reports, c: Clock, checks: seq<bool>): (res: Estimate)
    requires Ready(h, o, r, c) && ChecksFit(checks)
    ensures res.err == NoError || res.err == Timeout
    ensures res.err != NoError ==> res.held == []
    ensures res.retained.None? ==> res.err != NoError
  {
    var h0 := SetStartTag(h, o);
    ReportsKept(h.slots, h0.slots, r, c);
    if checks[0] then Estimate(h0, Timeout, None, [])
    else
      var tagged := TagHeapForObject(h0, o, r, c, checks[1..5]);
      var h1 := tagged.0;
      if tagged.1 != NoError then Estimate(h1, tagged.1, None, [])
      else if checks[5] then Estimate(h1, Timeout, None, [])
      else
        ObjectsKept(h.slots, h1.slots, r.objects);
        CountAndCollect(h1, r, checks[6])
  }

  /** The heap `estimateObjectSize` counts on: after the start tag and `tagHeap`. */
  function Tagged(h: Heap, o: ObjId, r: Reports, c: Clock, checks: seq<bool>): (t: Heap)
    requires Ready(h, o, r, c) && ChecksFit(checks)
    ensures HeapValid(t) && t.slots.Keys == h.slots.Keys
  {
    var h0 := SetStartTag(h, o);
    ReportsKept(h.slots, h0.slots, r, c);
    TagHeapForObject(h0, o, r, c, checks[1..5]).0
  }

  /**
   * The errors of `estimateObjectSize`: a stop at any phase boundary times
   * out; otherwise only a passed deadline before a walk does.
   */
  lemma EstimateObjectSizeErrors(h: Heap, o: ObjId, r: Reports, c: Clock, checks: seq<bool>)
    requires Ready(h, o, r, c) && ChecksFit(checks)
    ensures var err := EstimateObjectSize(h, o, r, c, checks).err;
            (true in checks ==> err == Timeout) && (err == Timeout ==> true in checks || true in c.late)
  {
    assert checks == [checks[0]] + checks[1..5] + [checks[5], checks[6]];
    assert forall b :: b in checks[1..5] ==> b in checks;
  }

  /**
   * A run without error ends with the counting and the collection on the
   * tagged heap, without a stop, so `CountAndCollectResult` describes its
   * retained size and held objects.
   */
  lemma EstimateObjectSizeCounts(h: Heap, o: ObjId, r: Reports, c: Clock, checks: seq<bool>)
    requires Ready(h, o, r, c) && ChecksFit(checks)
    ensures var res := EstimateObjectSize(h, o, r, c, checks);
            var t := Tagged(h, o, r, c, checks);
            res.err == NoError ==>
              (forall i :: 0 <= i < |r.objects| ==> ObjectIn(r.objects[i], t.slots))
              && res == CountAndCollect(t, r, false)
  {
    var res := EstimateObjectSize(h, o, r, c, checks);
    var t := Tagged(h, o, r, c, checks);
    var h0 := SetStartTag(h, o);
    ReportsKept(h.slots, h0.slots, r, c);
    if !checks[0] {
      var tagged := TagHeapForObject(h0, o, r, c, checks[1..5]);
      assert t == tagged.0;
      ObjectsKept(h.slots, t.slots, r.objects);
      if tagged.1 == NoError && !checks[5] {
        assert res == CountAndCollect(t, r, checks[6]);
      }
    }
  }

  /** The Java result: `[[shallow, retained], heldObjects]`. */
  datatype Result = Result(sizes: seq<Option<int>>, held: seq<ObjId>)

  /**
   * `executeOperation`: errors are only logged, so the result is built
   * whatever happened, from the object's shallow size `shallow`, the
   * retained size and the held objects.
   */
  function ExecuteOperation(h: Heap, o: ObjId, shallow: int, r: Reports, c: Clock, checks: seq<bool>): (res: Result)
    requires Ready(h, o, r, c) && ChecksFit(checks)
    ensures |res.sizes| == 2 && res.sizes[0] == Some(shallow)
    ensures res.sizes[1] == EstimateObjectSize(h, o, r, c, checks).retained
    ensures res.held == EstimateObjectSize(h, o, r, c, checks).held
  {
    var e := EstimateObjectSize(h, o, r, c, checks);
    Result([Some(shallow), e.retained], e.held)
  }

  /** `countSizeAndRetagHeldObjects` on the callbacks' state in place: the loop over the tag's entries, then `unref`. */
  method CountSizeAndRetag(cb: Callbacks, o: HeapObject) returns (added: int)
    requires cb.Valid() && o.id in cb.slots
    modifies cb, cb.tags
    ensures cb.Valid() && cb.HeapState() == CountObject(old(cb.HeapState()), o.id)
    ensures added == Added(old(cb.HeapState()), o)
  {
    ghost var h := cb.HeapState();
    var tag := cb.slots[o.id];
    added := 0;
    if tag == NO_TAG {
      return;
    }
    assert Live(cb.tags.State(), tag);
    var newTag;
    added, newTag := CountEntries(cb.tags.tags[tag].entries, o.size);
    cb.tags.Unref(tag);
    cb.slots := cb.slots[o.id := newTag];
    assert cb.HeapState() == CountObject(h, o.id);
  }

  /** The loop of `countSizeAndRetagHeldObjects` over a tag's entries. */
  method CountEntries(es: seq<TagInfo>, size: int) returns (added: int, newTag: int)
    ensures added == RetainedSize(es, size) && newTag == HeldTag(es)
  {
    added, newTag := 0, NO_TAG;
    var i := 0;
    while i < |es|
      invariant 0 <= i <= |es|
      invariant added == RetainedSize(es[..i], size)
      invariant newTag == HeldTag(es[..i])
    {
      assert es[..i + 1][..i] == es[..i];
      if IsRetained(es[i].state) {
        newTag := HELD_OBJECT_TAG;
        added := added + size;
      }
      i := i + 1;
    }
    assert es[..i] == es;
  }

  /** The counting iteration in place over the reported objects. */
  method CountAllInPlace(cb: Callbacks, objects: seq<HeapObject>) returns (size: int)
    requires cb.Valid() && forall i :: 0 <= i < |objects| ==> ObjectIn(objects[i], cb.slots)
    modifies cb, cb.tags
    ensures cb.Valid() && cb.HeapState() == CountAll(old(cb.HeapState()), objects).0
    ensures size == CountAll(old(cb.HeapState()), objects).1
  {
    ghost var h0 := cb.HeapState();
    size := 0;
    var i := 0;
    while i < |objects|
      invariant 0 <= i <= |objects| && cb.Valid()
      invariant forall k :: 0 <= k < |objects[i..]| ==> ObjectIn(objects[i..][k], cb.slots)
      invariant CountAll(h0, objects).0 == CountAll(cb.HeapState(), objects[i..]).0
      invariant CountAll(h0, objects).1 == size + CountAll(cb.HeapState(), objects[i..]).1
    {
      assert objects[i..][0] == objects[i] && objects[i..][1..] == objects[i + 1..];
      CountAllFirst(cb.HeapState(), objects[i..]);
      var added := CountSizeAndRetag(cb, objects[i]);
      size := size + added;
      i := i + 1;
    }
  }

  /** `GetObjectsWithTags` for `HeldObjectTag`, as a scan over the reported objects. */
  method CollectHeld(slots: map<ObjId, int>, objects: seq<HeapObject>) returns (held: seq<ObjId>)
    ensures held == HeldObjects(slots, objects)
  {
    held := [];
    var i := |objects|;
    while i > 0
      invariant 0 <= i <= |objects|
      invariant held == HeldObjects(slots, objects[i..])
    {
      i := i - 1;
      assert objects[i..][1..] == objects[i + 1..];
      var p := objects[i].id;
      if p in slots && slots[p] == HELD_OBJECT_TAG {
        held := [p] + held;
      }
    }
  }

  /** `estimateObjectSize` on the callbacks' state in place. */
  method EstimateObjectSizeInPlace(cb: Callbacks, o: ObjId, r: Reports, c: Clock, checks: seq<bool>)
    returns (err: AgentError, retained: Option<int>, held: seq<ObjId>)
    requires cb.Valid() && Ready(cb.HeapState(), o, r, c) && ChecksFit(checks)
    modifies cb, cb.tags
    ensures cb.Valid()
    ensures Estimate(cb.HeapState(), err, retained, held) == EstimateObjectSize(old(cb.HeapState()), o, r, c, checks)
  {
    ghost var h := cb.HeapState();
    ghost var m := AfterCreate(h.engine.store, 0, QueryState);
    CreateValid(h.engine.store, 0, QueryState, 0);
    var tag := cb.tags.Create(0, QueryState);
    cb.slots := cb.slots[o := tag];
    assert cb.HeapState() == SetStartTag(h, o);
    ReportsKept(h.slots, cb.slots, r, c);
    retained, held := None, [];
    if checks[0] {
      return Timeout, None, [];
    }
    err := TagHeapForObjectInPlace(cb, o, r, c, checks[1..5]);
    if err != NoError {
      return err, None, [];
    }
    if checks[5] {
      return Timeout, None, [];
    }
    ObjectsKept(h.slots, cb.slots, r.objects);
    var size := CountAllInPlace(cb, r.objects);
    if checks[6] {
      return Timeout, Some(size), [];
    }
    held := CollectHeld(cb.slots, r.objects);
    return NoError, Some(size), held;
  }

  /** `tagHeap` of this action on the callbacks' state in place. */
  method TagHeapForObjectInPlace(cb: Callbacks, o: ObjId, r: Reports, c: Clock, checks: seq<bool>) returns (err: AgentError)
    requires cb.Valid() && ReportsIn(cb.slots, r, c) && o in cb.slots && cb.tags.queries >= 1 && |checks| == 4
    modifies cb, cb.tags
    ensures cb.Valid() && (cb.HeapState(), err) == TagHeapForObject(old(cb.HeapState()), o, r, c, checks)
  {
    ghost var h := cb.HeapState();
    var _ := cb.FollowReferences(GetTagsWithNewInfoPass, r.newInfoEdges, c.newInfoStops);
    ReportsKept(h.slots, cb.slots, r, c);
    if checks[0] {
      return Timeout;
    }
    var slots1 := cb.slots;
    ghost var h1 := cb.HeapState();
    var pending := Pending(slots1, r.objects);
    if checks[1] {
      return Timeout;
    }
    if cb.slots[o] == TAG_WITH_NEW_INFO {
      CreateValid(h1.engine.store, 0, QueryState, 0);
      var tag := cb.tags.Create(0, QueryState);
      cb.slots := cb.slots[o := tag];
      assert cb.HeapState() == SetStartTag(h1, o);
    }
    assert cb.HeapState() == RetagStartObject(h1, o);
    if checks[2] {
      return Timeout;
    }
    err := VisitAndWalkInPlace(cb, h1, slots1, pending, r, c, checks[3]);
  }
}
