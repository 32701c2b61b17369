/**
 * The older shallow-size-by-class query `getSizes`. Its heap callback is
 * the same as that of `ShallowSizeByClassesAction` and is taken from
 * there; unlike it, `getSizes` has no stop check and resets the class
 * tags to 0 after the heap iteration.
 */
module SizeByClasses {
  import opened Jvmti
  import opened ShallowSizeByClasses

  /** `tagClasses` with `setTagToZero`: every listed class untagged, every other tag kept. */
  function UntagClasses(slots: map<ObjId, int>, classes: seq<ObjId>): (r: map<ObjId, int>)
    requires forall i :: 0 <= i < |classes| ==> classes[i] in slots
    ensures r.Keys == slots.Keys
    decreases |classes|
  {
    if classes == [] then slots
    else
      var n := |classes| - 1;
      assert forall i :: 0 <= i < n ==> classes[..n][i] == classes[i];
      UntagClasses(slots, classes[..n])[classes[n] := 0]
  }

  /** Untagging zeroes exactly the listed classes. */
  lemma {:induction false} UntagClassesZeroes(slots: map<ObjId, int>, classes: seq<ObjId>, p: ObjId)
    requires (forall i :: 0 <= i < |classes| ==> classes[i] in slots) && p in slots
    ensures UntagClasses(slots, classes)[p] == if p in classes then 0 else slots[p]
    decreases |classes|
  {
    if classes != [] {
      var n := |classes| - 1;
      var front := classes[..n];
      assert forall i :: 0 <= i < n ==> front[i] == classes[i];
      UntagClassesZeroes(slots, front, p);
      if p != classes[n] {
        assert p in classes <==> p in front by {
          if p in classes {
            var i :| 0 <= i < |classes| && classes[i] == p;
            assert i < n && front[i] == p;
          }
        }
      }
    }
  }

  /** `getSizes`: the sizes by class and the tag slots after the untagging loop. */
  function GetSizes(slots: map<ObjId, int>, classes: seq<ObjId>, heap: seq<HeapObject>): (r: (seq<int>, map<ObjId, int>))
    requires forall k :: 0 <= k < |classes| ==> classes[k] in slots
    ensures |r.0| == |classes| && r.1.Keys == slots.Keys
  {
    var tagged := TagClasses(slots, classes);
    (seq(|classes|, i => ShallowOf(tagged, heap, i + 1)), UntagClasses(tagged, classes))
  }

  /**
   * On a clean heap, class `i` gets the total size of its own instances
   * (0 at an earlier position of a class listed twice), and afterwards the
   * heap is clean again.
   */
  lemma GetSizesResult(slots: map<ObjId, int>, classes: seq<ObjId>, heap: seq<HeapObject>)
    requires Clean(slots) && (forall k :: 0 <= k < |classes| ==> classes[k] in slots) && ObjectsIn(slots, heap)
    ensures var r := GetSizes(slots, classes, heap);
            (forall i :: 0 <= i < |classes| ==>
               r.0[i] == if LastIndex(classes, classes[i]) == i then ClassSize(heap, classes[i]) else 0)
            && Clean(r.1)
  {
    var tagged := TagClasses(slots, classes);
    forall i | 0 <= i < |classes|
      ensures GetSizes(slots, classes, heap).0[i]
                == if LastIndex(classes, classes[i]) == i then ClassSize(heap, classes[i]) else 0
    {
      ShallowOfListed(slots, classes, heap, i);
    }
    forall p | p in slots ensures UntagClasses(tagged, classes)[p] == 0 {
      UntagClassesZeroes(tagged, classes, p);
      TagClassesLastWins(slots, classes, p);
    }
  }

  /** `getSizes` over the JVM's tag slots, changed in place through `SetTag`. */
  class SizeQuery {
    var slots: map<ObjId, int>

    constructor(slots0: map<ObjId, int>)
      ensures slots == slots0
    {
      slots := slots0;
    }

    /** `tagClasses`: class `i` gets `i + 1`, or 0 with `setTagToZero`. */
    method TagClassesInPlace(classes: seq<ObjId>, setTagToZero: bool)
      requires forall k :: 0 <= k < |classes| ==> classes[k] in slots
      modifies this
      ensures slots == if setTagToZero then UntagClasses(old(slots), classes) else TagClasses(old(slots), classes)
    {
      var i := 0;
      while i < |classes|
        invariant 0 <= i <= |classes|
        invariant slots == if setTagToZero then UntagClasses(old(slots), classes[..i]) else TagClasses(old(slots), classes[..i])
      {
        assert classes[..i + 1][..i] == classes[..i];
        slots := slots[classes[i] := if setTagToZero then 0 else i + 1];
        i := i + 1;
      }
      assert classes[..i] == classes;
    }

    /** `getSizes` on the live slots; see `GetSizes`. */
    method GetSizesInPlace(classes: seq<ObjId>, heap: seq<HeapObject>) returns (result: seq<int>)
      requires Clean(slots) && forall k :: 0 <= k < |classes| ==> classes[k] in slots
      modifies this
      ensures result == GetSizes(old(slots), classes, heap).0 && slots == GetSizes(old(slots), classes, heap).1
    {
      var sizes := new int[|classes|](_ => 0);
      TaggedBelow(slots, classes);
      TagClassesInPlace(classes, false);
      var tagged := slots;
      IterateThroughHeap(sizes, tagged, heap);
      result := sizes[..];
      assert result == seq(|classes|, i => ShallowOf(tagged, heap, i + 1));
      TagClassesInPlace(classes, true);
    }
  }
}
