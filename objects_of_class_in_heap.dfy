/**
 * The class-reachability query: which objects of a class (or of its
 * subclasses) are reachable from a start object through strong references.
 * Classes assignable to the target are tagged CLASS_TAG, the Reference
 * classes REFERENCE_CLASS_TAG; the heap callback then tags every object it
 * reaches weak/soft-reachable, strongly reachable, or object-of-class, the
 * last for strongly reachable instances of a tagged class.
 */
module ObjectsOfClassInHeap {
  import opened Jvmti
  import PathsToClosestGcRoots

  const CLASS_TAG: int := 1
  const REFERENCE_CLASS_TAG: int := 2
  const WEAK_SOFT_REACHABLE_TAG: int := 3
  const STRONG_REACHABLE_TAG: int := 4
  const OBJECT_OF_CLASS_TAG: int := 5

  /** The jlong tag of every object; 0 for an untagged one. */
  type Tags = map<ObjId, int>

  function TagOf(tags: Tags, o: ObjId): int {
    if o in tags then tags[o] else 0
  }

  /** The referrer is a weak/soft-reachable object (a heap root is not). */
  predicate WeakReferrer(tags: Tags, referrer: Option<ObjId>) {
    referrer.Some? && TagOf(tags, referrer.value) == WEAK_SOFT_REACHABLE_TAG
  }

  /** The referee's tag after the first cascade of the callback. */
  function Reached(tag: int, classTag: int, weakReferrer: bool): (r: int)
    ensures tag == CLASS_TAG || tag == REFERENCE_CLASS_TAG ==> r == tag
    ensures tag != CLASS_TAG && tag != REFERENCE_CLASS_TAG && classTag == REFERENCE_CLASS_TAG ==> r == WEAK_SOFT_REACHABLE_TAG
    ensures tag == 0 && classTag != REFERENCE_CLASS_TAG ==>
              r == if weakReferrer then WEAK_SOFT_REACHABLE_TAG else STRONG_REACHABLE_TAG
    ensures tag == WEAK_SOFT_REACHABLE_TAG && classTag != REFERENCE_CLASS_TAG ==>
              r == if weakReferrer then WEAK_SOFT_REACHABLE_TAG else STRONG_REACHABLE_TAG
    ensures tag !in {0, CLASS_TAG, REFERENCE_CLASS_TAG, WEAK_SOFT_REACHABLE_TAG} && classTag != REFERENCE_CLASS_TAG ==> r == tag
  {
    if tag == REFERENCE_CLASS_TAG || tag == CLASS_TAG then tag
    else if classTag == REFERENCE_CLASS_TAG then WEAK_SOFT_REACHABLE_TAG
    else if tag == 0 then (if weakReferrer then WEAK_SOFT_REACHABLE_TAG else STRONG_REACHABLE_TAG)
    else if tag == WEAK_SOFT_REACHABLE_TAG then (if !weakReferrer then STRONG_REACHABLE_TAG else tag)
    else tag
  }

  /**
   * `findReachableObjectsOfClass` for a reference `e` whose referee is an
   * instance of the class object `cls`: the new tags and the visit result.
   */
  function FindStep(tags: Tags, e: Edge, cls: ObjId, findFirst: bool): (r: (Tags, Visit))
  {
    var classTag := TagOf(tags, cls);
    var tag := TagOf(tags, e.referee);
    if tag == REFERENCE_CLASS_TAG || tag == CLASS_TAG then (tags, VisitObjects)
    else
      var t := Reached(tag, classTag, WeakReferrer(tags, e.referrer));
      if classTag == CLASS_TAG && t == STRONG_REACHABLE_TAG then
        (tags[e.referee := OBJECT_OF_CLASS_TAG], if findFirst then VisitAbort else VisitObjects)
      else (tags[e.referee := t], VisitObjects)
  }

  /** Only the referee's tag can change. */
  lemma FindStepFrame(tags: Tags, e: Edge, cls: ObjId, findFirst: bool, o: ObjId)
    requires o != e.referee
    ensures TagOf(FindStep(tags, e, cls, findFirst).0, o) == TagOf(tags, o)
  {
  }

  /** Class objects tagged CLASS_TAG or REFERENCE_CLASS_TAG keep their tag and are traversed. */
  lemma ClassTagsKept(tags: Tags, e: Edge, cls: ObjId, findFirst: bool)
    requires TagOf(tags, e.referee) in {CLASS_TAG, REFERENCE_CLASS_TAG}
    ensures FindStep(tags, e, cls, findFirst) == (tags, VisitObjects)
  {
  }

  /** An instance of a Reference class is tagged weak/soft-reachable. */
  lemma ReferenceInstancesWeak(tags: Tags, e: Edge, cls: ObjId, findFirst: bool)
    requires TagOf(tags, e.referee) !in {CLASS_TAG, REFERENCE_CLASS_TAG}
    requires TagOf(tags, cls) == REFERENCE_CLASS_TAG
    ensures FindStep(tags, e, cls, findFirst) == (tags[e.referee := WEAK_SOFT_REACHABLE_TAG], VisitObjects)
  {
  }

  /**
   * Apart from class objects and Reference instances, a reached object is
   * weak exactly when its referrer is weak and the object was untagged or
   * weak; a strongly reachable object never becomes weak again.
   */
  lemma WeakIffWeakReferrer(tags: Tags, e: Edge, cls: ObjId, findFirst: bool)
    requires TagOf(tags, e.referee) !in {CLASS_TAG, REFERENCE_CLASS_TAG}
    requires TagOf(tags, cls) != REFERENCE_CLASS_TAG
    ensures var t := TagOf(FindStep(tags, e, cls, findFirst).0, e.referee);
            (t == WEAK_SOFT_REACHABLE_TAG <==>
               WeakReferrer(tags, e.referrer) && TagOf(tags, e.referee) in {0, WEAK_SOFT_REACHABLE_TAG})
            && (TagOf(tags, e.referee) in {STRONG_REACHABLE_TAG, OBJECT_OF_CLASS_TAG} ==>
                 t in {STRONG_REACHABLE_TAG, OBJECT_OF_CLASS_TAG})
  {
  }

  /**
   * A strongly reached instance of a target class becomes object-of-class;
   * the traversal aborts exactly when that happens and only the first
   * object is wanted.
   */
  lemma ObjectOfClassFound(tags: Tags, e: Edge, cls: ObjId, findFirst: bool)
    ensures var (t, v) := FindStep(tags, e, cls, findFirst);
            var found := TagOf(tags, e.referee) != OBJECT_OF_CLASS_TAG && TagOf(t, e.referee) == OBJECT_OF_CLASS_TAG;
            (found <==> TagOf(tags, cls) == CLASS_TAG && TagOf(tags, e.referee) !in {CLASS_TAG, REFERENCE_CLASS_TAG}
                        && Reached(TagOf(tags, e.referee), CLASS_TAG, WeakReferrer(tags, e.referrer)) == STRONG_REACHABLE_TAG)
            && (v == VisitAbort <==> findFirst && found)
            && (v != VisitAbort ==> v == VisitObjects)
  {
  }

  /** Every object tagged object-of-class is an instance of a CLASS_TAG class. */
  predicate FoundAreInstances(tags: Tags, classOf: ObjId -> ObjId) {
    forall o :: o in tags && tags[o] == OBJECT_OF_CLASS_TAG ==> TagOf(tags, classOf(o)) == CLASS_TAG
  }

  /** The callback keeps that: it never retags a class object it has tagged CLASS_TAG, nor tags one object-of-class wrongly. */
  lemma FindStepKeepsInstances(tags: Tags, e: Edge, classOf: ObjId -> ObjId, findFirst: bool)
    requires FoundAreInstances(tags, classOf)
    ensures FoundAreInstances(FindStep(tags, e, classOf(e.referee), findFirst).0, classOf)
  {
    var t := FindStep(tags, e, classOf(e.referee), findFirst).0;
    forall o | o in t && t[o] == OBJECT_OF_CLASS_TAG
      ensures TagOf(t, classOf(o)) == CLASS_TAG
    {
      if classOf(o) == e.referee {
        assert TagOf(tags, e.referee) == CLASS_TAG || TagOf(tags, e.referee) == REFERENCE_CLASS_TAG || TagOf(t, e.referee) != CLASS_TAG;
      }
    }
  }

  /** The tags after `FollowReferences` reported `edges`, stopping at the first abort. */
  function Traverse(tags: Tags, edges: seq<Edge>, classOf: ObjId -> ObjId, findFirst: bool): (r: (Tags, nat))
    ensures r.1 <= |edges|
    decreases |edges|
  {
    if edges == [] then (tags, 0)
    else
      var (t, v) := FindStep(tags, edges[0], classOf(edges[0].referee), findFirst);
      if v == VisitAbort then (t, 1)
      else var (t2, n) := Traverse(t, edges[1..], classOf, findFirst); (t2, n + 1)
  }

  function Shifted(r: (Tags, nat), k: nat): (Tags, nat) {
    (r.0, r.1 + k)
  }

  /** One step of `Traverse`: the first reference, then the rest unless it aborted. */
  lemma TraverseFirst(tags: Tags, edges: seq<Edge>, classOf: ObjId -> ObjId, findFirst: bool)
    requires edges != []
    ensures var (t, v) := FindStep(tags, edges[0], classOf(edges[0].referee), findFirst);
            Traverse(tags, edges, classOf, findFirst) ==
              if v == VisitAbort then (t, 1) else Shifted(Traverse(t, edges[1..], classOf, findFirst), 1)
  {
  }

  /** The objects of `objs` tagged object-of-class. */
  function ObjectsOfClass(tags: Tags, objs: seq<ObjId>): (r: seq<ObjId>)
    ensures forall o :: o in r <==> o in objs && TagOf(tags, o) == OBJECT_OF_CLASS_TAG
    decreases |objs|
  {
    if objs == [] then []
    else if TagOf(tags, objs[0]) == OBJECT_OF_CLASS_TAG then [objs[0]] + ObjectsOfClass(tags, objs[1..])
    else ObjectsOfClass(tags, objs[1..])
  }

  /** The objects tagged object-of-class. */
  function FoundSet(tags: Tags): set<ObjId> {
    set o | o in tags && tags[o] == OBJECT_OF_CLASS_TAG
  }

  /** No object is tagged object-of-class: the heap before a query. */
  predicate NoneFound(tags: Tags) {
    forall o :: o in tags ==> tags[o] != OBJECT_OF_CLASS_TAG
  }

  /** With `findFirst`, the traversal tags at most one object object-of-class. */
  lemma {:induction false} FindFirstFindsAtMostOne(tags: Tags, edges: seq<Edge>, classOf: ObjId -> ObjId)
    requires NoneFound(tags)
    ensures |FoundSet(Traverse(tags, edges, classOf, true).0)| <= 1
    decreases |edges|
  {
    if edges == [] {
      assert FoundSet(tags) == {};
    } else {
      var e := edges[0];
      var (t, v) := FindStep(tags, e, classOf(e.referee), true);
      ObjectOfClassFound(tags, e, classOf(e.referee), true);
      forall o | o in FoundSet(t) ensures o == e.referee {
        if o != e.referee {
          FindStepFrame(tags, e, classOf(e.referee), true, o);
        }
      }
      if v == VisitAbort {
        assert FoundSet(t) <= {e.referee};
        SubsetSize(FoundSet(t), {e.referee});
      } else {
        assert NoneFound(t) by {
          forall o | o in t ensures t[o] != OBJECT_OF_CLASS_TAG {
            assert o !in FoundSet(t);
          }
        }
        FindFirstFindsAtMostOne(t, edges[1..], classOf);
      }
    }
  }

  lemma SubsetSize(a: set<ObjId>, b: set<ObjId>)
    requires a <= b
    ensures |a| <= |b|
  {
    assert b == a + (b - a);
  }

  /** The tags after the class loop: every listed class assignable to the target gets CLASS_TAG. */
  function TagClasses(tags: Tags, classes: seq<ObjId>, assignable: ObjId -> bool): (r: Tags)
    decreases |classes|
  {
    if classes == [] then tags
    else
      var t := TagClasses(tags, classes[..|classes| - 1], assignable);
      var c := classes[|classes| - 1];
      if assignable(c) then t[c := CLASS_TAG] else t
  }

  /** Every assignable loaded class is tagged CLASS_TAG; every other object keeps its tag. */
  lemma {:induction false} TagClassesTagsAssignable(tags: Tags, classes: seq<ObjId>, assignable: ObjId -> bool, o: ObjId)
    ensures TagOf(TagClasses(tags, classes, assignable), o) ==
              if o in classes && assignable(o) then CLASS_TAG else TagOf(tags, o)
    decreases |classes|
  {
    if classes != [] {
      var front := classes[..|classes| - 1];
      TagClassesTagsAssignable(tags, front, assignable, o);
      assert o in classes <==> o in front || o == classes[|classes| - 1];
    }
  }

  /**
   * The class tags before the traversal: `setTagsForReferences` marks the
   * loaded Reference classes REFERENCE_CLASS_TAG, then the class loop marks
   * the classes assignable to the target CLASS_TAG.
   */
  function ClassesTagged(tags: Tags, classes: seq<ObjId>, isReference: (int, ObjId) -> bool,
                         assignable: ObjId -> bool): Tags
  {
    TagClasses(PathsToClosestGcRoots.TagReferenceClasses(tags, classes, isReference, REFERENCE_CLASS_TAG),
               classes, assignable)
  }

  /**
   * A loaded class assignable to the target is CLASS_TAG, even when it is
   * also a Reference class; any other loaded Reference class is
   * REFERENCE_CLASS_TAG; every other object keeps its tag.
   */
  lemma ClassesTaggedTags(tags: Tags, classes: seq<ObjId>, isReference: (int, ObjId) -> bool,
                          assignable: ObjId -> bool, o: ObjId)
    ensures TagOf(ClassesTagged(tags, classes, isReference, assignable), o) ==
              if o in classes && assignable(o) then CLASS_TAG
              else if o in classes && (isReference(0, o) || isReference(1, o) || isReference(2, o)) then REFERENCE_CLASS_TAG
              else TagOf(tags, o)
  {
    var r := PathsToClosestGcRoots.TagReferenceClasses(tags, classes, isReference, REFERENCE_CLASS_TAG);
    TagClassesTagsAssignable(r, classes, assignable, o);
    PathsToClosestGcRoots.TagReferenceClassesTags(tags, classes, isReference, REFERENCE_CLASS_TAG, o);
  }

  /** What the first-object query returns: nothing when no object was found, else the first one. */
  function FirstFound(result: seq<ObjId>): (r: Option<ObjId>)
    ensures r.None? <==> result == []
    ensures r.Some? ==> r.value == result[0] && r.value in result
  {
    if result == [] then None else Some(result[0])
  }

  /** The query's tag state, changed in place by its loops and callbacks. */
  class ObjectsOfClassQuery {
    var tags: Tags

    constructor(initial: Tags)
      ensures tags == initial
    {
      tags := initial;
    }

    /**
     * `setTagsForReferences` with REFERENCE_CLASS_TAG: every loaded class
     * assignable to one of the three Reference classes gets the tag.
     */
    method SetTagsForReferences(classes: seq<ObjId>, isReference: (int, ObjId) -> bool)
      modifies this
      ensures tags == PathsToClosestGcRoots.TagReferenceClasses(old(tags), classes, isReference, REFERENCE_CLASS_TAG)
    {
      for i := 0 to |classes|
        invariant tags == PathsToClosestGcRoots.TagReferenceClasses(old(tags), classes[..i], isReference, REFERENCE_CLASS_TAG)
      {
        assert classes[..i + 1][..i] == classes[..i];
        for j := 0 to 3
          invariant forall k :: 0 <= k < j ==> !isReference(k, classes[i])
        {
          if isReference(j, classes[i]) {
            tags := tags[classes[i] := REFERENCE_CLASS_TAG];
            break;
          }
        }
      }
      assert classes[..|classes|] == classes;
    }

    /** The loop over the loaded classes: SetTag CLASS_TAG on every assignable one. */
    method TagAssignableClasses(classes: seq<ObjId>, assignable: ObjId -> bool)
      modifies this
      ensures tags == TagClasses(old(tags), classes, assignable)
    {
      for i := 0 to |classes|
        invariant tags == TagClasses(old(tags), classes[..i], assignable)
      {
        assert classes[..i + 1][..i] == classes[..i];
        if assignable(classes[i]) {
          tags := tags[classes[i] := CLASS_TAG];
        }
      }
      assert classes[..|classes|] == classes;
    }

    /** `findReachableObjectsOfClass` on the tags in place. */
    method FindReachableObjectsOfClass(e: Edge, cls: ObjId, findFirst: bool) returns (v: Visit)
      modifies this
      ensures (tags, v) == FindStep(old(tags), e, cls, findFirst)
    {
      var classTag := TagOf(tags, cls);
      var tag := TagOf(tags, e.referee);
      v := VisitObjects;
      if tag == REFERENCE_CLASS_TAG || tag == CLASS_TAG {
        return;
      } else if classTag == REFERENCE_CLASS_TAG {
        tag := WEAK_SOFT_REACHABLE_TAG;
      } else if tag == 0 {
        if e.referrer.Some? && TagOf(tags, e.referrer.value) == WEAK_SOFT_REACHABLE_TAG {
          tag := WEAK_SOFT_REACHABLE_TAG;
        } else {
          tag := STRONG_REACHABLE_TAG;
        }
      } else if tag == WEAK_SOFT_REACHABLE_TAG {
        if e.referrer.None? || TagOf(tags, e.referrer.value) != WEAK_SOFT_REACHABLE_TAG {
          tag := STRONG_REACHABLE_TAG;
        }
      }
      if classTag == CLASS_TAG && tag == STRONG_REACHABLE_TAG {
        tag := OBJECT_OF_CLASS_TAG;
        if findFirst {
          v := VisitAbort;
        }
      }
      tags := tags[e.referee := tag];
    }

    /** `FollowReferences` with that callback: `edges` in order, up to the first abort. */
    method FollowReferences(edges: seq<Edge>, classOf: ObjId -> ObjId, findFirst: bool) returns (visited: nat)
      modifies this
      ensures (tags, visited) == Traverse(old(tags), edges, classOf, findFirst)
    {
      ghost var t0 := old(tags);
      visited := 0;
      while visited < |edges|
        invariant 0 <= visited <= |edges|
        invariant Traverse(t0, edges, classOf, findFirst) ==
                  Shifted(Traverse(tags, edges[visited..], classOf, findFirst), visited)
      {
        ghost var before := tags;
        ghost var rest := edges[visited..];
        var e := edges[visited];
        var v := FindReachableObjectsOfClass(e, classOf(e.referee), findFirst);
        TraverseFirst(before, rest, classOf, findFirst);
        assert rest[0] == e && rest[1..] == edges[visited + 1..];
        visited := visited + 1;
        if v == VisitAbort {
          return;
        }
      }
    }

    /**
     * `getReachableObjectsOfClass`: tags the Reference classes and the
     * assignable classes, follows the references, and returns the
     * object-of-class objects in heap order. `isReference(k, c)` says whether
     * class `c` is assignable to the `k`-th Reference class.
     */
    method GetReachableObjectsOfClass(classes: seq<ObjId>, isReference: (int, ObjId) -> bool,
                                      assignable: ObjId -> bool, edges: seq<Edge>,
                                      classOf: ObjId -> ObjId, objs: seq<ObjId>, findFirst: bool)
      returns (result: seq<ObjId>)
      modifies this
      ensures var t := Traverse(ClassesTagged(old(tags), classes, isReference, assignable), edges, classOf, findFirst).0;
              tags == t && result == ObjectsOfClass(t, objs)
    {
      SetTagsForReferences(classes, isReference);
      TagAssignableClasses(classes, assignable);
      var _ := FollowReferences(edges, classOf, findFirst);
      result := ObjectsOfClass(tags, objs);
    }
  }
}
