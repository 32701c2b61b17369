/**
 * The phases every retained-size action shares: tagging the listed classes
 * and their instances, the five-phase `tagHeap`, and `cleanHeap`. They run
 * the callbacks of `SizesCallbacks` over what JVMTI reports on one heap.
 */
module SizesPhases {
  import opened Jvmti
  import opened SizesTags
  import opened SizesCallbacks
  import opened TagInfoArrays

  /**
   * What JVMTI reports on the heap: every object once, in iteration order;
   * the references of the two whole-heap walks; and for every object the
   * references of a walk from it.
   */
  datatype Reports = Reports(objects: seq<HeapObject>, newInfoEdges: seq<Edge>, visitEdges: seq<Edge>,
                             walks: seq<seq<Edge>>)

  /**
   * What the clock answers: `shouldStopIteration` at every reference of the
   * two whole-heap walks, the deadline before the walk from each object, and
   * `shouldStopIteration` at every reference of that walk.
   */
  datatype Clock = Clock(newInfoStops: seq<bool>, visitStops: seq<bool>, late: seq<bool>, walkStops: seq<seq<bool>>)

  /** The reports and answers fit together and name objects of the heap. */
  predicate ReportsIn(slots: map<ObjId, int>, r: Reports, c: Clock) {
    (forall i :: 0 <= i < |r.objects| ==> ObjectIn(r.objects[i], slots))
    && |c.newInfoStops| == |r.newInfoEdges| && EdgesIn(GetTagsWithNewInfoPass, r.newInfoEdges, slots)
    && |c.visitStops| == |r.visitEdges| && EdgesIn(VisitReferencePass, r.visitEdges, slots)
    && |r.walks| == |r.objects| && |c.late| == |r.objects| && |c.walkStops| == |r.objects|
    && forall i :: 0 <= i < |r.objects| ==>
         |c.walkStops[i]| == |r.walks[i]| && EdgesIn(SpreadInfoPass, r.walks[i], slots)
  }

  /** Reports about a heap stay valid while the heap keeps its objects. */
  lemma ReportsKept(slots: map<ObjId, int>, slots2: map<ObjId, int>, r: Reports, c: Clock)
    requires ReportsIn(slots, r, c) && slots.Keys == slots2.Keys
    ensures ReportsIn(slots2, r, c)
  {
    assert forall e :: EdgeIn(e, slots) == EdgeIn(e, slots2);
    assert forall o :: ObjectIn(o, slots) == ObjectIn(o, slots2);
  }

  /** Whether `GetObjectsWithTags` for `TagWithNewInfo` returns object `o`. */
  predicate HasNewInfo(slots: map<ObjId, int>, o: HeapObject)
    requires o.id in slots
  {
    slots[o.id] == TAG_WITH_NEW_INFO
  }

  /** The objects tagged `TagWithNewInfo`, in iteration order. */
  function Pending(slots: map<ObjId, int>, objects: seq<HeapObject>): (r: seq<ObjId>)
    requires forall i :: 0 <= i < |objects| ==> ObjectIn(objects[i], slots)
    ensures forall x :: x in r ==> x in slots && slots[x] == TAG_WITH_NEW_INFO
    ensures forall i :: 0 <= i < |objects| && objects[i].id in slots && slots[objects[i].id] == TAG_WITH_NEW_INFO ==>
              objects[i].id in r
  {
    if objects == [] then []
    else
      assert ObjectIn(objects[0], slots);
      var rest := Pending(slots, objects[1..]);
      assert forall i :: 1 <= i < |objects| ==> objects[i] == objects[1..][i - 1];
      if HasNewInfo(slots, objects[0]) then [objects[0].id] + rest else rest
  }

  /** The items of `xs`, one per object, that belong to the objects `Pending` selects. */
  function PendingOf<T>(slots: map<ObjId, int>, objects: seq<HeapObject>, xs: seq<T>): (r: seq<T>)
    requires forall i :: 0 <= i < |objects| ==> ObjectIn(objects[i], slots)
    requires |xs| == |objects|
    ensures |r| == |Pending(slots, objects)|
    ensures forall x :: x in r ==> x in xs
  {
    if objects == [] then []
    else
      assert ObjectIn(objects[0], slots);
      var rest := PendingOf(slots, objects[1..], xs[1..]);
      assert forall x :: x in xs[1..] ==> x in xs;
      if HasNewInfo(slots, objects[0]) then [xs[0]] + rest else rest
  }

  /** The walks from the pending objects get their own references and answers. */
  lemma {:induction false} PendingWalksIn(h: Heap, r: Reports, c: Clock)
    requires ReportsIn(h.slots, r, c)
    ensures WalksIn(h, Pending(h.slots, r.objects), PendingOf(h.slots, r.objects, c.late),
                    PendingOf(h.slots, r.objects, r.walks), PendingOf(h.slots, r.objects, c.walkStops))
    decreases |r.objects|
  {
    if r.objects != [] {
      var r1 := Reports(r.objects[1..], r.newInfoEdges, r.visitEdges, r.walks[1..]);
      var c1 := Clock(c.newInfoStops, c.visitStops, c.late[1..], c.walkStops[1..]);
      assert ReportsIn(h.slots, r1, c1) by {
        forall i | 0 <= i < |r1.objects|
          ensures ObjectIn(r1.objects[i], h.slots) && |c1.walkStops[i]| == |r1.walks[i]|
                  && EdgesIn(SpreadInfoPass, r1.walks[i], h.slots)
        {
          assert r1.objects[i] == r.objects[i + 1];
        }
      }
      PendingWalksIn(h, r1, c1);
    }
  }

  /** The deadline answers the pending walks see are some of the per-object answers. */
  lemma PendingLate(slots: map<ObjId, int>, objects: seq<HeapObject>, late: seq<bool>)
    requires forall i :: 0 <= i < |objects| ==> ObjectIn(objects[i], slots)
    requires |late| == |objects|
    ensures true in PendingOf(slots, objects, late) ==> true in late
  {
  }

  /**
   * The last phase of `tagHeap`: the walks from the objects that were
   * pending after the new-information pass (heap `h1`), run on heap `h4`.
   * Only a passed deadline makes it time out.
   */
  function PendingWalks(h1: Heap, h4: Heap, r: Reports, c: Clock): (res: (Heap, AgentError))
    requires ReportsIn(h1.slots, r, c) && HeapValid(h4) && h4.slots.Keys == h1.slots.Keys
    ensures HeapValid(res.0) && res.0.slots.Keys == h4.slots.Keys
    ensures res.0.engine.store.queries == h4.engine.store.queries
    ensures res.1 == NoError || res.1 == Timeout
    ensures res.1 == Timeout ==> true in c.late
  {
    var pending := Pending(h1.slots, r.objects);
    var late := PendingOf(h1.slots, r.objects, c.late);
    var walks := PendingOf(h1.slots, r.objects, r.walks);
    var stops := PendingOf(h1.slots, r.objects, c.walkStops);
    PendingWalksIn(h1, r, c);
    WalksKept(h1, h4, pending, late, walks, stops);
    WalkAllTimesOut(h4, pending, late, walks, stops);
    PendingLate(h1.slots, r.objects, c.late);
    WalkAll(h4, pending, late, walks, stops)
  }

  /**
   * `tagHeap`: the new-information pass, collection of the `TagWithNewInfo`
   * objects, re-tagging of the start objects, the visiting pass and the
   * walks from the collected objects, with `checks[k]` the
   * `shouldStopExecution` answer after phase `k`.
   */
  function TagHeap(h: Heap, r: Reports, c: Clock, checks: seq<bool>): (res: (Heap, AgentError))
    requires HeapValid(h) && ReportsIn(h.slots, r, c) && |checks| == 4
    ensures HeapValid(res.0) && res.0.slots.Keys == h.slots.Keys
    ensures res.0.engine.store.queries == h.engine.store.queries
    ensures res.1 == NoError || res.1 == Timeout
  {
    var h1 := FollowAll(h, GetTagsWithNewInfoPass, r.newInfoEdges, c.newInfoStops).heap;
    ReportsKept(h.slots, h1.slots, r, c);
    if checks[0] then (h1, Timeout)
    else if checks[1] then (h1, Timeout)
    else
      var h3 := IterateAll(h1, RetagStartObjectsPass, FilterUntagged, r.objects);
      if checks[2] then (h3, Timeout)
      else VisitAndWalk(h1, h3, r, c, checks[3])
  }

  /**
   * The end of `tagHeap`: the visiting pass, the stop check after it
   * (`stop`) and the walks from the objects collected on heap `h1`.
   */
  function VisitAndWalk(h1: Heap, h3: Heap, r: Reports, c: Clock, stop: bool): (res: (Heap, AgentError))
    requires ReportsIn(h1.slots, r, c) && HeapValid(h3) && h3.slots.Keys == h1.slots.Keys
    ensures HeapValid(res.0) && res.0.slots.Keys == h3.slots.Keys
    ensures res.0.engine.store.queries == h3.engine.store.queries
    ensures res.1 == NoError || res.1 == Timeout
    ensures res.1 == Timeout <== stop
    ensures res.1 == Timeout ==> stop || true in c.late
  {
    ReportsKept(h1.slots, h3.slots, r, c);
    var h4 := FollowAll(h3, VisitReferencePass, r.visitEdges, c.visitStops).heap;
    if stop then (h4, Timeout)
    else PendingWalks(h1, h4, r, c)
  }

  /**
   * `tagHeap` times out when a phase boundary says so, and otherwise only
   * when the deadline has passed before a pending walk.
   */
  lemma TagHeapTimesOut(h: Heap, r: Reports, c: Clock, checks: seq<bool>)
    requires HeapValid(h) && ReportsIn(h.slots, r, c) && |checks| == 4
    ensures TagHeap(h, r, c, checks).1 == Timeout ==> true in checks || true in c.late
    ensures true in checks ==> TagHeap(h, r, c, checks).1 == Timeout
  {
    assert checks == [checks[0], checks[1], checks[2], checks[3]];
  }

  /** Tagging class `classes[k]` with a fresh class tag of id `k + 1`, replacing its slot without releasing it. */
  function SetClassTag(h: Heap, c: ObjId, id: QueryIndex): (r: Heap)
    requires HeapValid(h) && c in h.slots && id <= h.engine.store.queries
    ensures HeapValid(r) && r.slots.Keys == h.slots.Keys
  {
    var m := AfterCreateClassTag(h.engine.store, id);
    AddValid(h.engine.store, ClassRec(id));
    SetTagValid(h, m, c);
    Heap(h.engine.(store := m.store), h.slots[c := m.tag])
  }

  /** A fresh tag put into one slot keeps the heap valid, whatever the slot held. */
  lemma SetTagValid(h: Heap, m: Made, c: ObjId)
    requires HeapValid(h) && c in h.slots && StoreValid(m.store)
    requires m.tag in m.store.tags && m.tag !in h.engine.store.tags
    requires m.store.tags == h.engine.store.tags[m.tag := m.store.tags[m.tag]]
    requires m.tag >= FIRST_HEAP_TAG && m.store.tags[m.tag].refCount >= 1
    ensures HeapValid(Heap(h.engine.(store := m.store), h.slots[c := m.tag]))
  {
    var s := h.engine.store;
    forall a | a >= FIRST_HEAP_TAG
      ensures RefCount(m.store, a) >= RefCount(s, a) - (if SlotOf(h.slots, c) == a then 1 else 0) + (if m.tag == a then 1 else 0)
    {
      if a != m.tag {
        assert RefCount(m.store, a) == RefCount(s, a);
      } else {
        assert RefCount(s, a) == 0;
      }
    }
    SlotUpdate(s, m.store, h.slots, c, m.tag);
  }

  /** `createTagsForClasses`: class `classes[k]` gets a class tag of id `k + 1`, in order. */
  function CreateTagsForClasses(h: Heap, classes: seq<ObjId>): (r: Heap)
    requires HeapValid(h) && (forall c :: c in classes ==> c in h.slots) && |classes| <= h.engine.store.queries
    ensures HeapValid(r) && r.slots.Keys == h.slots.Keys && r.engine.store.queries == h.engine.store.queries
    ensures r.engine.newInfo == h.engine.newInfo
    decreases |classes|
  {
    if classes == [] then h
    else
      var n := |classes|;
      var h1 := CreateTagsForClasses(h, classes[..n - 1]);
      SetClassTag(h1, classes[n - 1], n)
  }

  /** Where classes are listed, their slots hold their class tags; other objects keep their slots. */
  ghost predicate ClassesTagged(h: Heap, classes: seq<ObjId>) {
    forall k :: 0 <= k < |classes| && classes[k] !in classes[k + 1..] ==>
      classes[k] in h.slots && h.slots[classes[k]] in h.engine.store.tags
      && h.engine.store.tags[h.slots[classes[k]]].id == k + 1 && h.engine.store.tags[h.slots[classes[k]]].classTag
  }

  /** What `SetClassTag` does: the class's slot gets the next address, which now holds the class tag. */
  lemma SetClassTagFacts(h: Heap, c: ObjId, id: QueryIndex)
    requires HeapValid(h) && c in h.slots && id <= h.engine.store.queries
    ensures var r := SetClassTag(h, c, id); var t := h.engine.store.next;
            t !in h.engine.store.tags && t >= FIRST_HEAP_TAG
            && r.slots == h.slots[c := t] && r.engine.store.tags == h.engine.store.tags[t := ClassRec(id)]
  {
  }

  /** The classes listed before the last one are all listed. */
  lemma PrefixListed(h: Heap, classes: seq<ObjId>)
    requires (forall c :: c in classes ==> c in h.slots) && classes != []
    ensures forall c :: c in classes[..|classes| - 1] ==> c in h.slots
  {
    assert forall c :: c in classes[..|classes| - 1] ==> c in classes;
  }

  /**
   * After `createTagsForClasses` each listed class holds a class tag with id
   * its last position plus one: a class listed twice keeps only the later tag.
   */
  lemma {:induction false} CreateTagsForClassesTags(h: Heap, classes: seq<ObjId>)
    requires HeapValid(h) && (forall c :: c in classes ==> c in h.slots) && |classes| <= h.engine.store.queries
    ensures ClassesTagged(CreateTagsForClasses(h, classes), classes)
    decreases |classes|
  {
    if classes != [] {
      var n := |classes|;
      var pre := classes[..n - 1];
      PrefixListed(h, classes);
      var h1 := CreateTagsForClasses(h, pre);
      CreateTagsForClassesTags(h, pre);
      SetClassTagFacts(h1, classes[n - 1], n);
      var r := CreateTagsForClasses(h, classes);
      var t := h1.engine.store.next;
      forall k | 0 <= k < n && classes[k] !in classes[k + 1..]
        ensures classes[k] in r.slots && r.slots[classes[k]] in r.engine.store.tags
                && r.engine.store.tags[r.slots[classes[k]]].id == k + 1 && r.engine.store.tags[r.slots[classes[k]]].classTag
      {
        if k < n - 1 {
          assert classes[n - 1] in classes[k + 1..];
          assert pre[k + 1..] == classes[k + 1..n - 1];
          assert pre[k] == classes[k];
          assert h1.slots[classes[k]] != t;
        }
      }
    }
  }

  /** `createTagsForClasses` changes only the slots of the listed classes. */
  lemma {:induction false} CreateTagsForClassesKeeps(h: Heap, classes: seq<ObjId>)
    requires HeapValid(h) && (forall c :: c in classes ==> c in h.slots) && |classes| <= h.engine.store.queries
    ensures forall o :: o in h.slots && o !in classes ==> CreateTagsForClasses(h, classes).slots[o] == h.slots[o]
    decreases |classes|
  {
    if classes != [] {
      var n := |classes|;
      PrefixListed(h, classes);
      var h1 := CreateTagsForClasses(h, classes[..n - 1]);
      CreateTagsForClassesKeeps(h, classes[..n - 1]);
      SetClassTagFacts(h1, classes[n - 1], n);
      assert forall o :: o in classes[..n - 1] ==> o in classes;
    }
  }

  /** Starting on a heap with no shared and no static tag, `createTagsForClasses` leaves one. */
  lemma {:induction false} CreateTagsForClassesReady(h: Heap, classes: seq<ObjId>)
    requires HeapValid(h) && (forall c :: c in classes ==> c in h.slots) && |classes| <= h.engine.store.queries
    requires ObjectPassReady(h, TagObjectOfTaggedClassPass)
    ensures ObjectPassReady(CreateTagsForClasses(h, classes), TagObjectOfTaggedClassPass)
    decreases |classes|
  {
    if classes != [] {
      var n := |classes|;
      PrefixListed(h, classes);
      var h1 := CreateTagsForClasses(h, classes[..n - 1]);
      CreateTagsForClassesReady(h, classes[..n - 1]);
      SetClassTagFacts(h1, classes[n - 1], n);
      var r := CreateTagsForClasses(h, classes);
      var t := h1.engine.store.next;
      forall a | a >= FIRST_HEAP_TAG ensures RefCount(r.engine.store, a) <= 1 {
        if a != t {
          assert RefCount(r.engine.store, a) == RefCount(h1.engine.store, a);
        }
      }
    }
  }

  /** Objects of a heap stay objects of it while it keeps its slots' keys. */
  lemma ObjectsKept(slots: map<ObjId, int>, slots2: map<ObjId, int>, objects: seq<HeapObject>)
    requires (forall i :: 0 <= i < |objects| ==> ObjectIn(objects[i], slots)) && slots.Keys == slots2.Keys
    ensures forall i :: 0 <= i < |objects| ==> ObjectIn(objects[i], slots2)
  {
    assert forall o :: ObjectIn(o, slots) == ObjectIn(o, slots2);
  }

  /** `tagObjectsOfClasses`: the classes are tagged, then every object is offered to `tagObjectOfTaggedClass`. */
  function TagObjectsOfClasses(h: Heap, classes: seq<ObjId>, objects: seq<HeapObject>): (r: Heap)
    requires HeapValid(h) && (forall c :: c in classes ==> c in h.slots) && |classes| <= h.engine.store.queries
    requires ObjectPassReady(h, TagObjectOfTaggedClassPass)
    requires forall i :: 0 <= i < |objects| ==> ObjectIn(objects[i], h.slots)
    ensures HeapValid(r) && r.slots.Keys == h.slots.Keys && r.engine.store.queries == h.engine.store.queries
  {
    var h1 := CreateTagsForClasses(h, classes);
    CreateTagsForClassesReady(h, classes);
    ObjectsKept(h.slots, h1.slots, objects);
    IterateAll(h1, TagObjectOfTaggedClassPass, NoFilter, objects)
  }

  /** `cleanHeap`: every object releases its tag; the result says whether the leak check fires. */
  function CleanHeap(h: Heap, objects: seq<HeapObject>): (r: (Heap, bool))
    requires HeapValid(h) && forall i :: 0 <= i < |objects| ==> ObjectIn(objects[i], h.slots)
    ensures HeapValid(r.0) && r.0.slots.Keys == h.slots.Keys
    ensures r.1 <==> HeapAddresses(r.0.engine.store.tags) != {}
  {
    var h2 := IterateAll(h, ClearTagPass, NoFilter, objects);
    (h2, h2.engine.store.balance != 0)
  }

  /** Clearing one object's tag untags that object and leaves every other slot alone. */
  lemma ClearObject(h: Heap, o: HeapObject)
    requires HeapValid(h) && ObjectIn(o, h.slots)
    ensures ApplyObject(h, ClearTagPass, NoFilter, o).slots == h.slots[o.id := NO_TAG]
  {
  }

  /** An untagged object stays untagged through a clearing pass that untags its objects and keeps the rest. */
  lemma StaysUntagged(s: map<ObjId, int>, r: map<ObjId, int>, objects: seq<HeapObject>, o: ObjId)
    requires o in s && s[o] == NO_TAG && r.Keys == s.Keys
    requires forall i :: 0 <= i < |objects| ==> objects[i].id in r && r[objects[i].id] == NO_TAG
    requires forall p :: p in s && (forall i :: 0 <= i < |objects| ==> objects[i].id != p) ==> r[p] == s[p]
    ensures r[o] == NO_TAG
  {
  }

  /** After `cleanHeap` every offered object is untagged and every other slot is as before. */
  lemma {:induction false} CleanHeapUntags(h: Heap, objects: seq<HeapObject>)
    requires HeapValid(h) && forall i :: 0 <= i < |objects| ==> ObjectIn(objects[i], h.slots)
    ensures forall i :: 0 <= i < |objects| ==> CleanHeap(h, objects).0.slots[objects[i].id] == NO_TAG
    ensures forall o :: o in h.slots && (forall i :: 0 <= i < |objects| ==> objects[i].id != o) ==>
              CleanHeap(h, objects).0.slots[o] == h.slots[o]
  {
    ClearsUntag(h, objects);
  }

  /** The clearing pass over `objects`, the body of `cleanHeap`. */
  lemma {:induction false} ClearsUntag(h: Heap, objects: seq<HeapObject>)
    requires HeapValid(h) && forall i :: 0 <= i < |objects| ==> ObjectIn(objects[i], h.slots)
    ensures var r := IterateAll(h, ClearTagPass, NoFilter, objects);
            (forall i :: 0 <= i < |objects| ==> r.slots[objects[i].id] == NO_TAG)
            && forall o :: o in h.slots && (forall i :: 0 <= i < |objects| ==> objects[i].id != o) ==>
                 r.slots[o] == h.slots[o]
    decreases |objects|
  {
    if objects != [] {
      var h2 := ApplyObject(h, ClearTagPass, NoFilter, objects[0]);
      ClearObject(h, objects[0]);
      var rest := objects[1..];
      assert forall i :: 0 <= i < |rest| ==> rest[i] == objects[i + 1];
      ClearsUntag(h2, rest);
      var r := IterateAll(h2, ClearTagPass, NoFilter, rest);
      assert r == IterateAll(h, ClearTagPass, NoFilter, objects);
      forall i | 0 <= i < |objects| ensures r.slots[objects[i].id] == NO_TAG {
        if i > 0 {
          assert objects[i] == rest[i - 1];
        } else {
          StaysUntagged(h2.slots, r.slots, rest, objects[0].id);
        }
      }
    }
  }

  /** The phases on the callbacks' state in place. */
  method CreateTagsForClassesInPlace(cb: Callbacks, classes: seq<ObjId>)
    requires cb.Valid() && (forall c :: c in classes ==> c in cb.slots) && |classes| <= cb.tags.queries
    modifies cb, cb.tags
    ensures cb.Valid() && cb.HeapState() == CreateTagsForClasses(old(cb.HeapState()), classes)
  {
    ghost var h0 := cb.HeapState();
    var i := 0;
    while i < |classes|
      invariant 0 <= i <= |classes| && cb.Valid() && cb.slots.Keys == h0.slots.Keys && cb.tags.queries == h0.engine.store.queries
      invariant forall c :: c in classes[..i] ==> c in h0.slots
      invariant cb.HeapState() == CreateTagsForClasses(h0, classes[..i])
    {
      ghost var h1 := cb.HeapState();
      assert classes[..i + 1][..i] == classes[..i];
      assert classes[..i + 1][i] == classes[i];
      assert forall c :: c in classes[..i + 1] ==> c in classes;
      SetClassTagFacts(h1, classes[i], i + 1);
      var p := cb.tags.CreateClassTag(i + 1);
      cb.slots := cb.slots[classes[i] := p];
      assert cb.HeapState() == SetClassTag(h1, classes[i], i + 1);
      i := i + 1;
    }
    assert classes[..i] == classes;
  }

  method TagObjectsOfClassesInPlace(cb: Callbacks, classes: seq<ObjId>, objects: seq<HeapObject>)
    requires cb.Valid() && (forall c :: c in classes ==> c in cb.slots) && |classes| <= cb.tags.queries
    requires ObjectPassReady(cb.HeapState(), TagObjectOfTaggedClassPass)
    requires forall i :: 0 <= i < |objects| ==> ObjectIn(objects[i], cb.slots)
    modifies cb, cb.tags
    ensures cb.Valid() && cb.HeapState() == TagObjectsOfClasses(old(cb.HeapState()), classes, objects)
  {
    ghost var h := cb.HeapState();
    CreateTagsForClassesInPlace(cb, classes);
    CreateTagsForClassesReady(h, classes);
    ObjectsKept(h.slots, cb.slots, objects);
    cb.IterateThroughHeap(TagObjectOfTaggedClassPass, NoFilter, objects);
  }

  method TagHeapInPlace(cb: Callbacks, r: Reports, c: Clock, checks: seq<bool>) returns (err: AgentError)
    requires cb.Valid() && ReportsIn(cb.slots, r, c) && |checks| == 4
    modifies cb, cb.tags
    ensures cb.Valid() && (cb.HeapState(), err) == TagHeap(old(cb.HeapState()), r, c, checks)
  {
    ghost var h := cb.HeapState();
    var _ := cb.FollowReferences(GetTagsWithNewInfoPass, r.newInfoEdges, c.newInfoStops);
    ReportsKept(h.slots, cb.slots, r, c);
    if checks[0] {
      return Timeout;
    }
    var slots1 := cb.slots;
    ghost var h1 := cb.HeapState();
    var pending := Pending(slots1, r.objects);
    if checks[1] {
      return Timeout;
    }
    cb.IterateThroughHeap(RetagStartObjectsPass, FilterUntagged, r.objects);
    if checks[2] {
      return Timeout;
    }
    err := VisitAndWalkInPlace(cb, h1, slots1, pending, r, c, checks[3]);
  }

  /** `VisitAndWalk` on the callbacks' state in place; `slots1` are the slots the pending objects were collected from. */
  method VisitAndWalkInPlace(cb: Callbacks, ghost h1: Heap, slots1: map<ObjId, int>, pending: seq<ObjId>,
                             r: Reports, c: Clock, stop: bool) returns (err: AgentError)
    requires ReportsIn(h1.slots, r, c) && slots1 == h1.slots && pending == Pending(slots1, r.objects)
    requires cb.Valid() && cb.slots.Keys == h1.slots.Keys
    modifies cb, cb.tags
    ensures cb.Valid() && (cb.HeapState(), err) == VisitAndWalk(h1, old(cb.HeapState()), r, c, stop)
  {
    ReportsKept(h1.slots, cb.slots, r, c);
    var _ := cb.FollowReferences(VisitReferencePass, r.visitEdges, c.visitStops);
    if stop {
      return Timeout;
    }
    var late := PendingOf(slots1, r.objects, c.late);
    var walks := PendingOf(slots1, r.objects, r.walks);
    var stops := PendingOf(slots1, r.objects, c.walkStops);
    PendingWalksIn(h1, r, c);
    WalksKept(h1, cb.HeapState(), pending, late, walks, stops);
    err := cb.WalkHeapFromObjects(pending, late, walks, stops);
  }

  method CleanHeapInPlace(cb: Callbacks, objects: seq<HeapObject>) returns (leak: bool)
    requires cb.Valid() && forall i :: 0 <= i < |objects| ==> ObjectIn(objects[i], cb.slots)
    modifies cb, cb.tags
    ensures cb.Valid() && (cb.HeapState(), leak) == CleanHeap(old(cb.HeapState()), objects)
  {
    cb.IterateThroughHeap(ClearTagPass, NoFilter, objects);
    leak := cb.tags.balance != 0;
  }
}
