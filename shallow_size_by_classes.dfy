/**
 * Shallow sizes by class (`ShallowSizeByClassesAction`): class `i` of the
 * query is tagged `i + 1`, `IterateThroughHeap` with the class-untagged
 * filter reports every instance of a tagged class, and each instance adds
 * its size to the slot of its class's tag. The JVM's tag slots are a map
 * from the heap's objects to tag values; the sizes buffer is an array.
 */
module ShallowSizeByClasses {
  import opened Jvmti
  import SizesCallbacks

  type HeapObject = SizesCallbacks.HeapObject

  /** The tag slots after the tagging loop over `classes[..|classes|]`: class `i` gets `i + 1`. */
  function TagClasses(slots: map<ObjId, int>, classes: seq<ObjId>): (r: map<ObjId, int>)
    requires forall i :: 0 <= i < |classes| ==> classes[i] in slots
    ensures r.Keys == slots.Keys
    decreases |classes|
  {
    if classes == [] then slots
    else
      var n := |classes| - 1;
      assert forall i :: 0 <= i < n ==> classes[..n][i] == classes[i];
      TagClasses(slots, classes[..n])[classes[n] := n + 1]
  }

  /** The last position of a listed class. */
  function LastIndex(classes: seq<ObjId>, c: ObjId): (r: nat)
    requires c in classes
    ensures r < |classes| && classes[r] == c && forall j :: r < j < |classes| ==> classes[j] != c
    decreases |classes|
  {
    var n := |classes| - 1;
    if classes[n] == c then n
    else
      assert c in classes[..n] by {
        var i :| 0 <= i < |classes| && classes[i] == c;
        assert i < n && classes[..n][i] == c;
      }
      LastIndex(classes[..n], c)
  }

  /**
   * After tagging, a listed class carries one more than its last position
   * (for a class listed twice the later index wins), and every other
   * object keeps its tag.
   */
  lemma {:induction false} TagClassesLastWins(slots: map<ObjId, int>, classes: seq<ObjId>, p: ObjId)
    requires (forall i :: 0 <= i < |classes| ==> classes[i] in slots) && p in slots
    ensures TagClasses(slots, classes)[p] == if p in classes then LastIndex(classes, p) + 1 else slots[p]
    decreases |classes|
  {
    if classes != [] {
      var n := |classes| - 1;
      var front := classes[..n];
      assert forall i :: 0 <= i < n ==> front[i] == classes[i];
      TagClassesLastWins(slots, front, p);
      if p != classes[n] {
        assert p in classes <==> p in front by {
          if p in classes {
            var i :| 0 <= i < |classes| && classes[i] == p;
            assert i < n && front[i] == p;
          }
        }
      }
    }
  }

  /** The class tag `IterateThroughHeap` passes with an object: its class object's tag. */
  function ClassTagOf(slots: map<ObjId, int>, o: HeapObject): int {
    if o.cls in slots then slots[o.cls] else 0
  }

  /**
   * What the callback adds to `sizes[t - 1]` over the reported objects: the
   * sizes of the instances whose class is tagged `t`. The class-untagged
   * filter drops the instances of untagged classes, and the callback
   * ignores class tag 0 as well.
   */
  function ShallowOf(slots: map<ObjId, int>, heap: seq<HeapObject>, t: int): (n: int)
    ensures (forall i :: 0 <= i < |heap| ==> heap[i].size >= 0) ==> n >= 0
    decreases |heap|
  {
    if heap == [] then 0
    else
      var m := |heap| - 1;
      assert forall i :: 0 <= i < m ==> heap[..m][i] == heap[i];
      ShallowOf(slots, heap[..m], t) + (if t != 0 && ClassTagOf(slots, heap[m]) == t then heap[m].size else 0)
  }

  /** The total size of the instances whose class is exactly `c`. */
  function ClassSize(heap: seq<HeapObject>, c: ObjId): int
    decreases |heap|
  {
    if heap == [] then 0
    else
      var m := |heap| - 1;
      ClassSize(heap[..m], c) + (if heap[m].cls == c then heap[m].size else 0)
  }

  /** No object carries a tag. */
  predicate Clean(slots: map<ObjId, int>) {
    forall p :: p in slots ==> slots[p] == 0
  }

  predicate ObjectsIn(slots: map<ObjId, int>, heap: seq<HeapObject>) {
    forall i :: 0 <= i < |heap| ==> heap[i].cls in slots
  }

  /**
   * On a clean heap tagged with `classes`, the size collected for tag
   * `i + 1` is the total size of the instances whose class is exactly
   * `classes[i]` (subclass instances are not counted), when `i` is the last
   * position of that class; an earlier position of a class listed twice
   * collects 0.
   */
  lemma {:induction false} ShallowOfListed(slots: map<ObjId, int>, classes: seq<ObjId>, heap: seq<HeapObject>, i: nat)
    requires Clean(slots) && (forall k :: 0 <= k < |classes| ==> classes[k] in slots) && ObjectsIn(slots, heap)
    requires i < |classes|
    ensures ShallowOf(TagClasses(slots, classes), heap, i + 1) ==
              if LastIndex(classes, classes[i]) == i then ClassSize(heap, classes[i]) else 0
    decreases |heap|
  {
    if heap != [] {
      var m := |heap| - 1;
      assert forall k :: 0 <= k < m ==> heap[..m][k] == heap[k];
      ShallowOfListed(slots, classes, heap[..m], i);
      var c := heap[m].cls;
      TagClassesLastWins(slots, classes, c);
      if c == classes[i] {
        assert LastIndex(classes, c) >= i;
      }
      if c in classes && LastIndex(classes, c) == i {
        assert c == classes[i];
      }
    }
  }

  /** `executeOperation`: the sizes by class, or an empty array when a stop request comes after tagging. */
  function ExecuteOperation(slots: map<ObjId, int>, classes: seq<ObjId>, heap: seq<HeapObject>, stop: bool): (r: seq<int>)
    requires forall k :: 0 <= k < |classes| ==> classes[k] in slots
    ensures stop ==> r == []
    ensures !stop ==> |r| == |classes|
  {
    if stop then []
    else
      var tagged := TagClasses(slots, classes);
      seq(|classes|, i => ShallowOf(tagged, heap, i + 1))
  }

  /**
   * On a clean heap and without a stop request the result has one slot per
   * listed class holding the total size of that class's own instances,
   * except that an earlier position of a class listed twice holds 0.
   */
  lemma ExecuteOperationSizes(slots: map<ObjId, int>, classes: seq<ObjId>, heap: seq<HeapObject>)
    requires Clean(slots) && (forall k :: 0 <= k < |classes| ==> classes[k] in slots) && ObjectsIn(slots, heap)
    ensures var r := ExecuteOperation(slots, classes, heap, false);
            |r| == |classes|
            && forall i :: 0 <= i < |classes| ==>
                 r[i] == if LastIndex(classes, classes[i]) == i then ClassSize(heap, classes[i]) else 0
  {
    forall i | 0 <= i < |classes|
      ensures ExecuteOperation(slots, classes, heap, false)[i]
                == if LastIndex(classes, classes[i]) == i then ClassSize(heap, classes[i]) else 0
    {
      ShallowOfListed(slots, classes, heap, i);
    }
  }

  /** Every tag lies in `[0, n]`, so the callback's `classTag - 1` stays inside a buffer of `n` sizes. */
  predicate TagsBelow(slots: map<ObjId, int>, n: nat) {
    forall p :: p in slots ==> 0 <= slots[p] <= n
  }

  /** Tagging a clean heap with `classes` leaves every tag in `[0, |classes|]`. */
  lemma TaggedBelow(slots: map<ObjId, int>, classes: seq<ObjId>)
    requires Clean(slots) && forall k :: 0 <= k < |classes| ==> classes[k] in slots
    ensures TagsBelow(TagClasses(slots, classes), |classes|)
  {
    forall p | p in slots ensures 0 <= TagClasses(slots, classes)[p] <= |classes| {
      TagClassesLastWins(slots, classes, p);
    }
  }

  /** `calculateShallowSize`: an instance of a tagged class adds its size to its class's slot. */
  method CalculateShallowSize(sizes: array<int>, classTag: int, size: int) returns (v: Visit)
    requires 0 <= classTag <= sizes.Length
    modifies sizes
    ensures classTag != 0 ==> sizes[..] == old(sizes[..])[classTag - 1 := old(sizes[classTag - 1]) + size]
    ensures classTag == 0 ==> sizes[..] == old(sizes[..])
    ensures v == VisitObjects
  {
    if classTag != 0 {
      sizes[classTag - 1] := sizes[classTag - 1] + size;
    }
    return VisitObjects;
  }

  /**
   * `IterateThroughHeap` with the class-untagged filter and
   * `calculateShallowSize`: every slot gains the size of the instances of
   * the class with its tag.
   */
  method IterateThroughHeap(sizes: array<int>, slots: map<ObjId, int>, heap: seq<HeapObject>)
    requires TagsBelow(slots, sizes.Length)
    modifies sizes
    ensures forall k :: 0 <= k < sizes.Length ==> sizes[k] == old(sizes[k]) + ShallowOf(slots, heap, k + 1)
  {
    var i := 0;
    assert heap[..0] == [];
    assert forall t :: ShallowOf(slots, heap[..0], t) == 0;
    while i < |heap|
      invariant 0 <= i <= |heap|
      invariant forall k :: 0 <= k < sizes.Length ==> sizes[k] == old(sizes[k]) + ShallowOf(slots, heap[..i], k + 1)
    {
      assert heap[..i + 1][..i] == heap[..i];
      var classTag := ClassTagOf(slots, heap[i]);
      if classTag != 0 {
        var _ := CalculateShallowSize(sizes, classTag, heap[i].size);
      }
      i := i + 1;
    }
    assert heap[..i] == heap;
  }

  /** The action over the JVM's tag slots. */
  class ShallowSizeByClassesAction {
    var slots: map<ObjId, int>

    constructor(slots0: map<ObjId, int>)
      ensures slots == slots0
    {
      slots := slots0;
    }

    /** `tagClasses`: class `i` gets tag `i + 1`; see `TagClasses`. */
    method TagClassesInPlace(classes: seq<ObjId>)
      requires forall k :: 0 <= k < |classes| ==> classes[k] in slots
      modifies this
      ensures slots == TagClasses(old(slots), classes)
    {
      var i := 0;
      while i < |classes|
        invariant 0 <= i <= |classes| && slots == TagClasses(old(slots), classes[..i])
      {
        assert classes[..i + 1][..i] == classes[..i];
        slots := slots[classes[i] := i + 1];
        i := i + 1;
      }
      assert classes[..i] == classes;
    }

    /** `executeOperation` on the live slots; see `ExecuteOperation`. */
    method ExecuteOperationInPlace(classes: seq<ObjId>, heap: seq<HeapObject>, stop: bool) returns (result: seq<int>)
      requires Clean(slots) && forall k :: 0 <= k < |classes| ==> classes[k] in slots
      modifies this
      ensures slots == TagClasses(old(slots), classes)
      ensures result == ExecuteOperation(old(slots), classes, heap, stop)
    {
      var sizes := new int[|classes|](_ => 0);
      TaggedBelow(slots, classes);
      TagClassesInPlace(classes);
      if stop {
        return [];
      }
      IterateThroughHeap(sizes, slots, heap);
      result := sizes[..];
    }
  }
}
