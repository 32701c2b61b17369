/**
 * The two-pass retained-size estimate of `RetainedSizeByObjectsMergedAction`.
 *
 * The query objects are tagged START. A first `FollowReferences` from the
 * heap roots marks everything it reaches VISITED without entering a START
 * object; a second `FollowReferences` from each query object marks START
 * everything it reaches that the first pass did not. The retained size is
 * the total size of the START objects. Tags are plain marks here, not
 * pointers: the JVM's tag slots are a map from the heap's objects to values.
 */
module RetainedSizeByObjectsMerged {
  import opened Jvmti
  import SizesCallbacks

  type HeapObject = SizesCallbacks.HeapObject

  const START_TAG: int := 1
  const VISITED_TAG: int := 2

  /** The two reference callbacks: `firstTravers` and `secondTravers`. */
  datatype Traversal = FirstTravers | SecondTravers

  /** The mark a traversal leaves alone and does not enter. */
  function Kept(t: Traversal): int {
    match t
    case FirstTravers => START_TAG
    case SecondTravers => VISITED_TAG
  }

  /** The mark a traversal gives every other referee. */
  function Marked(t: Traversal): int {
    match t
    case FirstTravers => VISITED_TAG
    case SecondTravers => START_TAG
  }

  /** The new value of `*tagPtr` after the callback sees one reference. */
  function MarkTag(t: Traversal, kind: int, tag: int): int {
    if IsJniReference(kind) || tag == Kept(t) then tag else Marked(t)
  }

  /** What the callback returns: JNI references and kept referees are not followed. */
  function MarkVisit(t: Traversal, kind: int, tag: int): (v: Visit)
    ensures v == VisitObjects <==> MarkTag(t, kind, tag) == Marked(t) && !IsJniReference(kind) && tag != Kept(t)
    ensures v != VisitObjects ==> v == NoVisit && MarkTag(t, kind, tag) == tag
  {
    if IsJniReference(kind) || tag == Kept(t) then NoVisit else VisitObjects
  }

  predicate EdgesIn(edges: seq<Edge>, slots: map<ObjId, int>) {
    forall i :: 0 <= i < |edges| ==> edges[i].referee in slots
  }

  /** One `FollowReferences` with the callback of `t`, over the references it reports, in order. */
  function Follow(t: Traversal, slots: map<ObjId, int>, edges: seq<Edge>): (r: map<ObjId, int>)
    requires EdgesIn(edges, slots)
    ensures r.Keys == slots.Keys
    decreases |edges|
  {
    if edges == [] then slots
    else
      var e := edges[0];
      var s1 := slots[e.referee := MarkTag(t, e.kind, slots[e.referee])];
      assert forall i :: 0 <= i < |edges[1..]| ==> edges[1..][i] == edges[i + 1];
      Follow(t, s1, edges[1..])
  }

  /** Object `p` is the referee of a reported reference that is not a JNI reference. */
  predicate Reached(edges: seq<Edge>, p: ObjId) {
    exists i :: 0 <= i < |edges| && !IsJniReference(edges[i].kind) && edges[i].referee == p
  }

  /**
   * What one traversal leaves in every slot: an object with the kept mark
   * keeps it, every other object reached by a non-JNI reference gets the
   * traversal's mark, and every other slot is unchanged. In particular the
   * first traversal never overwrites START and the second never
   * overwrites VISITED.
   */
  lemma {:induction false} FollowMarks(t: Traversal, slots: map<ObjId, int>, edges: seq<Edge>, p: ObjId)
    requires EdgesIn(edges, slots) && p in slots
    ensures Follow(t, slots, edges)[p] ==
              if slots[p] == Kept(t) then Kept(t) else if Reached(edges, p) then Marked(t) else slots[p]
    decreases |edges|
  {
    if edges != [] {
      var e := edges[0];
      var s1 := slots[e.referee := MarkTag(t, e.kind, slots[e.referee])];
      var rest := edges[1..];
      assert forall i :: 0 <= i < |rest| ==> rest[i] == edges[i + 1];
      FollowMarks(t, s1, rest, p);
      if Reached(edges, p) && !Reached(rest, p) {
        assert !IsJniReference(e.kind) && e.referee == p;
      }
      if Reached(rest, p) {
        var i :| 0 <= i < |rest| && !IsJniReference(rest[i].kind) && rest[i].referee == p;
        assert edges[i + 1] == rest[i];
      }
    }
  }

  /** What a traversal may stop after: an object's index, or the end. */
  datatype Phase = Phase(slots: map<ObjId, int>, stopped: bool)

  /**
   * The tagging loop of `traverseHeapForTheFirstTime`: each query object is
   * tagged START, and a stop request seen after tagging one ends the loop.
   */
  function TagStarts(slots: map<ObjId, int>, objects: seq<ObjId>, stops: seq<bool>): (r: Phase)
    requires |stops| == |objects| && forall i :: 0 <= i < |objects| ==> objects[i] in slots
    ensures r.slots.Keys == slots.Keys
    decreases |objects|
  {
    if objects == [] then Phase(slots, false)
    else
      var s1 := slots[objects[0] := START_TAG];
      assert forall i :: 0 <= i < |objects[1..]| ==> objects[1..][i] == objects[i + 1];
      if stops[0] then Phase(s1, true) else TagStarts(s1, objects[1..], stops[1..])
  }

  /** Without a stop request every query object is START and every other slot keeps its value. */
  lemma {:induction false} TagStartsMarks(slots: map<ObjId, int>, objects: seq<ObjId>, stops: seq<bool>, p: ObjId)
    requires |stops| == |objects| && (forall i :: 0 <= i < |objects| ==> objects[i] in slots) && p in slots
    ensures var r := TagStarts(slots, objects, stops);
            !r.stopped <==> forall i :: 0 <= i < |stops| ==> !stops[i]
    ensures var r := TagStarts(slots, objects, stops);
            !r.stopped ==> r.slots[p] == if p in objects then START_TAG else slots[p]
    decreases |objects|
  {
    if objects != [] {
      var s1 := slots[objects[0] := START_TAG];
      var rest := objects[1..];
      assert forall i :: 0 <= i < |rest| ==> rest[i] == objects[i + 1];
      assert forall i :: 0 <= i < |stops[1..]| ==> stops[1..][i] == stops[i + 1];
      TagStartsMarks(s1, rest, stops[1..], p);
      assert objects == [objects[0]] + rest;
    }
  }

  predicate AllEdgesIn(walks: seq<seq<Edge>>, slots: map<ObjId, int>) {
    forall k :: 0 <= k < |walks| ==> EdgesIn(walks[k], slots)
  }

  /**
   * The loop of `traverseHeapFromStartObject`: one second traversal from
   * each query object, and a stop request seen after one ends the loop.
   */
  function FollowFromStarts(slots: map<ObjId, int>, walks: seq<seq<Edge>>, stops: seq<bool>): (r: Phase)
    requires |stops| == |walks| && AllEdgesIn(walks, slots)
    ensures r.slots.Keys == slots.Keys
    decreases |walks|
  {
    if walks == [] then Phase(slots, false)
    else
      var s1 := Follow(SecondTravers, slots, walks[0]);
      assert forall k :: 0 <= k < |walks[1..]| ==> walks[1..][k] == walks[k + 1];
      if stops[0] then Phase(s1, true) else FollowFromStarts(s1, walks[1..], stops[1..])
  }

  /** Some walk from a query object reaches `p` by a non-JNI reference. */
  predicate ReachedFromStarts(walks: seq<seq<Edge>>, p: ObjId) {
    exists k :: 0 <= k < |walks| && Reached(walks[k], p)
  }

  /** Without a stop request the walks together mark START every reached object that is not VISITED. */
  lemma {:induction false} FollowFromStartsMarks(slots: map<ObjId, int>, walks: seq<seq<Edge>>, stops: seq<bool>, p: ObjId)
    requires |stops| == |walks| && AllEdgesIn(walks, slots) && p in slots
    ensures var r := FollowFromStarts(slots, walks, stops);
            !r.stopped <==> forall k :: 0 <= k < |stops| ==> !stops[k]
    ensures var r := FollowFromStarts(slots, walks, stops);
            !r.stopped ==>
              r.slots[p] == (if slots[p] == VISITED_TAG then VISITED_TAG
                             else if ReachedFromStarts(walks, p) then START_TAG else slots[p])
    decreases |walks|
  {
    if walks != [] {
      var s1 := Follow(SecondTravers, slots, walks[0]);
      var rest := walks[1..];
      assert forall k :: 0 <= k < |rest| ==> rest[k] == walks[k + 1];
      assert forall k :: 0 <= k < |stops[1..]| ==> stops[1..][k] == stops[k + 1];
      FollowMarks(SecondTravers, slots, walks[0], p);
      FollowFromStartsMarks(s1, rest, stops[1..], p);
      if ReachedFromStarts(rest, p) {
        var k :| 0 <= k < |rest| && Reached(rest[k], p);
        assert Reached(walks[k + 1], p);
      }
      if ReachedFromStarts(walks, p) && !Reached(walks[0], p) {
        var k :| 0 <= k < |walks| && Reached(walks[k], p);
        assert k > 0 && Reached(rest[k - 1], p);
      }
    }
  }

  /** The total size of the reported heap objects tagged START: what `countRetainedSize` adds up. */
  function StartSize(slots: map<ObjId, int>, heap: seq<HeapObject>): (n: int)
    ensures (forall i :: 0 <= i < |heap| ==> heap[i].size >= 0) ==> n >= 0
    decreases |heap|
  {
    if heap == [] then 0
    else
      assert forall i :: 0 <= i < |heap[1..]| ==> heap[1..][i] == heap[i + 1];
      var o := heap[0];
      (if o.id in slots && slots[o.id] == START_TAG then o.size else 0) + StartSize(slots, heap[1..])
  }

  /** The total size of all reported heap objects. */
  function HeapSize(heap: seq<HeapObject>): int
    decreases |heap|
  {
    if heap == [] then 0 else heap[0].size + HeapSize(heap[1..])
  }

  /**
   * With non-negative sizes the retained size lies between the size of any
   * single START object and the size of the whole heap; with no START
   * object it is 0.
   */
  lemma {:induction false} StartSizeBounds(slots: map<ObjId, int>, heap: seq<HeapObject>)
    requires forall i :: 0 <= i < |heap| ==> heap[i].size >= 0
    ensures StartSize(slots, heap) <= HeapSize(heap)
    ensures forall i :: 0 <= i < |heap| && heap[i].id in slots && slots[heap[i].id] == START_TAG ==>
              heap[i].size <= StartSize(slots, heap)
    ensures (forall i :: 0 <= i < |heap| ==> heap[i].id !in slots || slots[heap[i].id] != START_TAG) ==>
              StartSize(slots, heap) == 0
    decreases |heap|
  {
    if heap != [] {
      var rest := heap[1..];
      assert forall i :: 0 <= i < |rest| ==> rest[i] == heap[i + 1];
      StartSizeBounds(slots, rest);
    }
  }

  /**
   * When the action stops: after tagging an object, after the first
   * traversal, after a walk from an object, after the second traversal and
   * after fetching the START objects.
   */
  datatype Stops = Stops(tagging: seq<bool>, afterFirst: bool, walks: seq<bool>, afterSecond: bool, beforeCount: bool)

  /** What the JVM reports: the references of the first traversal, and those of each walk from a query object. */
  datatype Reports = Reports(roots: seq<Edge>, walks: seq<seq<Edge>>, heap: seq<HeapObject>)

  /** The final tag slots, the error, and `retainedSize` (`None` while unassigned). */
  datatype Outcome = Outcome(slots: map<ObjId, int>, err: AgentError, retained: Option<int>)

  predicate Fits(slots: map<ObjId, int>, objects: seq<ObjId>, r: Reports, st: Stops) {
    |st.tagging| == |objects| && |st.walks| == |objects| && |r.walks| == |objects|
    && (forall i :: 0 <= i < |objects| ==> objects[i] in slots)
    && EdgesIn(r.roots, slots) && AllEdgesIn(r.walks, slots)
  }

  /** `estimateObjectsSize`: tag, first traversal, second traversal, count; a stop request at any boundary interrupts. */
  function EstimateObjectsSize(slots: map<ObjId, int>, objects: seq<ObjId>, r: Reports, st: Stops): (res: Outcome)
    requires Fits(slots, objects, r, st)
    ensures res.slots.Keys == slots.Keys
  {
    var t := TagStarts(slots, objects, st.tagging);
    if t.stopped then Outcome(t.slots, Interrupted, None)
    else
      var s2 := Follow(FirstTravers, t.slots, r.roots);
      if st.afterFirst then Outcome(s2, Interrupted, None)
      else
        var w := FollowFromStarts(s2, r.walks, st.walks);
        if w.stopped || st.afterSecond then Outcome(w.slots, Interrupted, None)
        else if st.beforeCount then Outcome(w.slots, Interrupted, Some(0))
        else Outcome(w.slots, NoError, Some(StartSize(w.slots, r.heap)))
  }

  predicate NoStop(st: Stops) {
    (forall i :: 0 <= i < |st.tagging| ==> !st.tagging[i]) && !st.afterFirst
    && (forall i :: 0 <= i < |st.walks| ==> !st.walks[i]) && !st.afterSecond && !st.beforeCount
  }

  /**
   * The estimate succeeds exactly when no stop request is seen, and is
   * interrupted otherwise; `retainedSize` is unassigned only when the
   * action stopped before counting.
   */
  lemma EstimateObjectsSizeErrors(slots: map<ObjId, int>, objects: seq<ObjId>, r: Reports, st: Stops)
    requires Fits(slots, objects, r, st)
    ensures var res := EstimateObjectsSize(slots, objects, r, st);
            (res.err == NoError <==> NoStop(st)) && (res.err == NoError || res.err == Interrupted)
            && (res.retained.None? ==> res.err == Interrupted)
  {
    var t := TagStarts(slots, objects, st.tagging);
    if objects != [] {
      TagStartsMarks(slots, objects, st.tagging, objects[0]);
      var s2 := Follow(FirstTravers, t.slots, r.roots);
      FollowFromStartsMarks(s2, r.walks, st.walks, objects[0]);
    } else {
      assert FollowFromStarts(Follow(FirstTravers, t.slots, r.roots), r.walks, st.walks).stopped == false;
    }
  }

  /** No slot of a clean heap holds either mark. */
  predicate Clean(slots: map<ObjId, int>) {
    forall p :: p in slots ==> slots[p] != START_TAG && slots[p] != VISITED_TAG
  }

  /**
   * On a heap free of marks, a successful estimate leaves START exactly on
   * the query objects and on the objects a walk from them reaches that the
   * first traversal from the roots did not; the retained size is their
   * total size on the reported heap.
   */
  lemma EstimateObjectsSizeMarks(slots: map<ObjId, int>, objects: seq<ObjId>, r: Reports, st: Stops, p: ObjId)
    requires Fits(slots, objects, r, st) && Clean(slots) && p in slots && NoStop(st)
    ensures var res := EstimateObjectsSize(slots, objects, r, st);
            (res.slots[p] == START_TAG <==>
               p in objects || (!Reached(r.roots, p) && ReachedFromStarts(r.walks, p)))
            && res.retained == Some(StartSize(res.slots, r.heap))
  {
    var t := TagStarts(slots, objects, st.tagging);
    TagStartsMarks(slots, objects, st.tagging, p);
    var s2 := Follow(FirstTravers, t.slots, r.roots);
    FollowMarks(FirstTravers, t.slots, r.roots, p);
    FollowFromStartsMarks(s2, r.walks, st.walks, p);
  }

  /** `executeOperation`: a one-element array holding `retainedSize`, whatever the error. */
  function ExecuteOperation(slots: map<ObjId, int>, objects: seq<ObjId>, r: Reports, st: Stops): (res: seq<Option<int>>)
    requires Fits(slots, objects, r, st)
    ensures |res| == 1 && res[0] == EstimateObjectsSize(slots, objects, r, st).retained
  {
    [EstimateObjectsSize(slots, objects, r, st).retained]
  }

  /** `cleanHeap`: every tag of the heap removed. */
  function CleanHeap(slots: map<ObjId, int>): (r: map<ObjId, int>)
    ensures r.Keys == slots.Keys && Clean(r) && forall p :: p in r ==> r[p] == 0
  {
    map p | p in slots :: 0
  }

  /** The action over the JVM's tag slots, changed in place by the callbacks. */
  class MergedAction {
    var slots: map<ObjId, int>

    constructor(slots0: map<ObjId, int>)
      ensures slots == slots0
    {
      slots := slots0;
    }

    /** One reference reported to the callback of `t`; see `MarkTag` and `MarkVisit`. */
    method Travers(t: Traversal, e: Edge) returns (v: Visit)
      requires e.referee in slots
      modifies this
      ensures slots == old(slots)[e.referee := MarkTag(t, e.kind, old(slots)[e.referee])]
      ensures v == MarkVisit(t, e.kind, old(slots)[e.referee])
    {
      var tag := slots[e.referee];
      if IsJniReference(e.kind) {
        return NoVisit;
      } else if tag == Kept(t) {
        return NoVisit;
      }
      slots := slots[e.referee := Marked(t)];
      return VisitObjects;
    }

    /** `FollowReferences` with the callback of `t`; see `Follow`. */
    method FollowReferences(t: Traversal, edges: seq<Edge>)
      requires EdgesIn(edges, slots)
      modifies this
      ensures slots == Follow(t, old(slots), edges)
    {
      var i := 0;
      while i < |edges|
        invariant 0 <= i <= |edges| && slots.Keys == old(slots).Keys && EdgesIn(edges[i..], slots)
        invariant Follow(t, old(slots), edges) == Follow(t, slots, edges[i..])
      {
        assert edges[i..][0] == edges[i] && edges[i..][1..] == edges[i + 1..];
        var _ := Travers(t, edges[i]);
        i := i + 1;
      }
    }

    /** The loop of `traverseHeapForTheFirstTime` before its traversal; see `TagStarts`. */
    method TagObjects(objects: seq<ObjId>, stops: seq<bool>) returns (stopped: bool)
      requires |stops| == |objects| && forall i :: 0 <= i < |objects| ==> objects[i] in slots
      modifies this
      ensures Phase(slots, stopped) == TagStarts(old(slots), objects, stops)
    {
      var i := 0;
      while i < |objects|
        invariant 0 <= i <= |objects| && slots.Keys == old(slots).Keys
        invariant forall k :: 0 <= k < |objects[i..]| ==> objects[i..][k] in slots
        invariant TagStarts(old(slots), objects, stops) == TagStarts(slots, objects[i..], stops[i..])
      {
        assert objects[i..][0] == objects[i] && objects[i..][1..] == objects[i + 1..];
        assert stops[i..][1..] == stops[i + 1..];
        slots := slots[objects[i] := START_TAG];
        if stops[i] {
          return true;
        }
        i := i + 1;
      }
      return false;
    }

    /** `traverseHeapFromStartObject`; see `FollowFromStarts`. */
    method TraverseFromStarts(walks: seq<seq<Edge>>, stops: seq<bool>) returns (stopped: bool)
      requires |stops| == |walks| && AllEdgesIn(walks, slots)
      modifies this
      ensures Phase(slots, stopped) == FollowFromStarts(old(slots), walks, stops)
    {
      var i := 0;
      while i < |walks|
        invariant 0 <= i <= |walks| && slots.Keys == old(slots).Keys
        invariant AllEdgesIn(walks[i..], slots)
        invariant FollowFromStarts(old(slots), walks, stops) == FollowFromStarts(slots, walks[i..], stops[i..])
      {
        assert walks[i..][0] == walks[i] && walks[i..][1..] == walks[i + 1..];
        assert stops[i..][1..] == stops[i + 1..];
        FollowReferences(SecondTravers, walks[i]);
        if stops[i] {
          return true;
        }
        i := i + 1;
      }
      return false;
    }

    /** `countRetainedSize`: the sizes of the START objects added up, unless a stop request comes first. */
    method CountRetainedSize(heap: seq<HeapObject>, stop: bool) returns (err: AgentError, size: int)
      ensures err == (if stop then Interrupted else NoError)
      ensures size == if stop then 0 else StartSize(slots, heap)
    {
      size := 0;
      if stop {
        return Interrupted, size;
      }
      var i := |heap|;
      while i > 0
        invariant 0 <= i <= |heap| && size == StartSize(slots, heap[i..])
      {
        i := i - 1;
        assert heap[i..][1..] == heap[i + 1..];
        if heap[i].id in slots && slots[heap[i].id] == START_TAG {
          size := size + heap[i].size;
        }
      }
      assert heap[0..] == heap;
      err := NoError;
    }

    /** `estimateObjectsSize` on the live slots; see `EstimateObjectsSize`. */
    method EstimateObjectsSizeInPlace(objects: seq<ObjId>, r: Reports, st: Stops)
      returns (err: AgentError, retained: Option<int>)
      requires Fits(slots, objects, r, st)
      modifies this
      ensures Outcome(slots, err, retained) == EstimateObjectsSize(old(slots), objects, r, st)
    {
      var stopped := TagObjects(objects, st.tagging);
      if stopped {
        return Interrupted, None;
      }
      FollowReferences(FirstTravers, r.roots);
      if st.afterFirst {
        return Interrupted, None;
      }
      stopped := TraverseFromStarts(r.walks, st.walks);
      if stopped || st.afterSecond {
        return Interrupted, None;
      }
      var size;
      err, size := CountRetainedSize(r.heap, st.beforeCount);
      retained := Some(size);
    }

    /** `cleanHeap`; see `CleanHeap`. */
    method RemoveAllTags()
      modifies this
      ensures slots == CleanHeap(old(slots))
    {
      slots := map p | p in slots :: 0;
    }
  }
}
