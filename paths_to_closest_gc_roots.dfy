/**
 * The heap traversal of the GC-root path finder. Every object JVMTI reaches
 * gets a `GcTag` (its jlong tag is the tag's address); `collectPaths`
 * records on it one back-reference per incoming reference, marks it visited
 * and keeps its weak/soft-reachable flag up to date. Reference classes
 * (SoftReference, WeakReference, PhantomReference and their subclasses)
 * share the static tag `GcTag::WeakSoftReferenceTag` at address 1. Its
 * definition is not part of this model, so its initial weak flag is a
 * parameter; once set on the classes it is an ordinary `GcTag`, and
 * `collectPaths` updates it by the ordinary rule when a class is reached.
 */
module PathsToClosestGcRoots {
  import opened Jvmti
  import opened RootsState
  import Infos

  /** The address of the static `GcTag::WeakSoftReferenceTag`. */
  const WEAK_SOFT_REFERENCE_TAG: int := 1

  /** A `GcTag`: its state byte and its back-references. */
  datatype GcTagRec = GcTagRec(state: bv8, backRefs: seq<Infos.ReferenceInfo>)

  /**
   * The tags of the heap: the jlong tag of every object (0 untagged), the
   * `GcTag` at every live address, the next free address, and
   * `rootsTagBalance`.
   */
  datatype Heap = Heap(slots: map<ObjId, int>, store: map<int, GcTagRec>, next: int, balance: int)

  function TagOf(h: Heap, o: ObjId): int {
    if o in h.slots then h.slots[o] else 0
  }

  /** The state behind a tag; `pointerToGcTag(0)` is a fresh tag, neither weak nor visited. */
  function StateOf(h: Heap, tag: int): bv8 {
    if tag in h.store then h.store[tag].state else 0
  }

  /** `tag != 0 && pointerToGcTag(tag)->isWeakSoftReachable()`. */
  predicate WeakTag(h: Heap, tag: int) {
    tag != 0 && IsWeakSoftReachable(StateOf(h, tag))
  }

  predicate Valid(h: Heap) {
    && WEAK_SOFT_REFERENCE_TAG < h.next
    && WEAK_SOFT_REFERENCE_TAG in h.store
    && (forall p :: p in h.store ==> 0 < p < h.next)
    && (forall o :: o in h.slots ==> h.slots[o] == 0 || h.slots[o] in h.store)
  }

  /**
   * A heap before the query: no object tagged, and only the static tag,
   * not visited and weak as `staticWeak` says.
   */
  function EmptyHeap(staticWeak: bool): (h: Heap)
    ensures Valid(h) && h.balance == 0 && h.slots == map[] && h.store.Keys == {WEAK_SOFT_REFERENCE_TAG}
    ensures !IsAlreadyVisited(h.store[WEAK_SOFT_REFERENCE_TAG].state)
    ensures IsWeakSoftReachable(h.store[WEAK_SOFT_REFERENCE_TAG].state) == staticWeak
  {
    Heap(map[], map[WEAK_SOFT_REFERENCE_TAG := GcTagRec(Create(false, staticWeak), [])],
         WEAK_SOFT_REFERENCE_TAG + 1, 0)
  }

  /** `GcTag::create(classTag)` stored as `o`'s tag: weak when the class tag is weak. */
  function CreateTagFor(h: Heap, o: ObjId, classTag: int): (r: Heap)
    requires Valid(h)
    ensures Valid(r) && r.balance == h.balance + 1 && TagOf(r, o) == h.next && h.next !in h.store
    ensures r.store == h.store[h.next := GcTagRec(Create(false, WeakTag(h, classTag)), [])]
    ensures r.slots == h.slots[o := h.next]
  {
    Heap(h.slots[o := h.next], h.store[h.next := GcTagRec(Create(false, WeakTag(h, classTag)), [])],
         h.next + 1, h.balance + 1)
  }

  /** `GcTag::updateState`: the state rule against the given state, on every tag. */
  function UpdateTag(t: GcTagRec, referrerState: bv8): (r: GcTagRec)
    ensures r.backRefs == t.backRefs
    ensures IsAlreadyVisited(r.state) == IsAlreadyVisited(t.state)
    ensures IsWeakSoftReachable(r.state) <==>
              IsWeakSoftReachable(referrerState) && (IsWeakSoftReachable(t.state) || !IsAlreadyVisited(t.state))
  {
    OtherBitsKept(UpdateWeak(t.state, referrerState), t.state, WEAK_SOFT_BIT, VISITED_BIT);
    t.(state := UpdateWeak(t.state, referrerState))
  }

  /** The tag `collectPaths` works on: the existing one, or one just created from the referrer's class tag. */
  function Reached(h: Heap, e: Edge, classTag: int): (r: Heap)
    requires Valid(h)
    ensures Valid(r) && TagOf(r, e.referee) in r.store
  {
    if TagOf(h, e.referee) == 0 then CreateTagFor(h, e.referee, classTag) else h
  }

  /** The back-reference `collectPaths` records: the referrer's tag, or -1 for a heap root. */
  function BackRef(h: Heap, e: Edge, info: Infos.HeapReferenceInfo): Infos.ReferenceInfo {
    Infos.CreateReferenceInfo(if e.referrer.Some? then TagOf(h, e.referrer.value) else -1, e.kind, info)
  }

  /**
   * `collectPaths` for the reference `e`, where `classTag` is the tag of
   * the referrer's class (0 for a heap root) and `info` the JVMTI reference
   * details.
   */
  function CollectPaths(h: Heap, e: Edge, classTag: int, info: Infos.HeapReferenceInfo): Heap
    requires Valid(h)
  {
    var h1 := Reached(h, e, classTag);
    var p := TagOf(h1, e.referee);
    h1.(store := h1.store[p := Recorded(h1, h1.store[p], e, classTag, info)])
  }

  /**
   * The referee's tag `t` once `collectPaths` is done with it: updated from
   * the referrer's class tag when that is weak and from the referrer's
   * tag otherwise, the back-reference appended, marked visited.
   */
  function Recorded(h1: Heap, t: GcTagRec, e: Edge, classTag: int, info: Infos.HeapReferenceInfo): GcTagRec {
    var t2 :=
      if e.referrer.Some? then
        var source := if WeakTag(h1, classTag) then StateOf(h1, classTag)
                      else StateOf(h1, TagOf(h1, e.referrer.value));
        UpdateTag(t, source).(backRefs := t.backRefs + [BackRef(h1, e, info)])
      else t.(backRefs := t.backRefs + [BackRef(h1, e, info)]);
    t2.(state := SetAttribute(t2.state, true, VISITED_BIT))
  }

  /** The traversal keeps the heap well formed. */
  lemma CollectPathsKeepsValid(h: Heap, e: Edge, classTag: int, info: Infos.HeapReferenceInfo)
    requires Valid(h)
    ensures Valid(CollectPaths(h, e, classTag, info))
  {
  }

  /**
   * Each reference appends exactly one back-reference to its referee's tag
   * (the referrer's tag, or -1 for a root) and marks the referee visited;
   * only an untagged referee gets a new tag, and no other tag changes.
   */
  lemma CollectPathsRecordsOne(h: Heap, e: Edge, classTag: int, info: Infos.HeapReferenceInfo)
    requires Valid(h)
    ensures var h1 := Reached(h, e, classTag);
            var r := CollectPaths(h, e, classTag, info);
            var p := TagOf(r, e.referee);
            && r.slots == h1.slots && p != 0 && p in r.store
            && (TagOf(h, e.referee) != 0 ==> p == TagOf(h, e.referee) && r.balance == h.balance)
            && (TagOf(h, e.referee) == 0 ==> p !in h.store && r.balance == h.balance + 1)
            && r.store[p].backRefs == h1.store[p].backRefs + [BackRef(h1, e, info)]
            && BackRef(h1, e, info).tag == (if e.referrer.Some? then TagOf(h1, e.referrer.value) else -1)
            && IsAlreadyVisited(r.store[p].state)
            && r.store.Keys == h1.store.Keys
            && (forall q :: q in h.store && q != p ==> r.store[q] == h.store[q])
  {
  }

  /**
   * The weak flag: a root leaves it alone; otherwise the referee is weak
   * after the reference exactly when it is reached through a weak
   * reference class or a weak referrer and was weak or not visited before.
   * This holds for the static tag of the reference classes too.
   */
  lemma CollectPathsWeak(h: Heap, e: Edge, classTag: int, info: Infos.HeapReferenceInfo)
    requires Valid(h)
    ensures var h1 := Reached(h, e, classTag);
            var p := TagOf(h1, e.referee);
            var before := h1.store[p].state;
            var after := CollectPaths(h, e, classTag, info).store[p].state;
            (e.referrer.None? ==> IsWeakSoftReachable(after) == IsWeakSoftReachable(before))
            && (e.referrer.Some? ==>
                (IsWeakSoftReachable(after) <==>
                   (WeakTag(h1, classTag) || IsWeakSoftReachable(StateOf(h1, TagOf(h1, e.referrer.value))))
                   && (IsWeakSoftReachable(before) || !IsAlreadyVisited(before))))
  {
    var h1 := Reached(h, e, classTag);
    var p := TagOf(h1, e.referee);
    var t := h1.store[p];
    var after := CollectPaths(h, e, classTag, info).store[p].state;
    if e.referrer.Some? {
      var source := if WeakTag(h1, classTag) then StateOf(h1, classTag) else StateOf(h1, TagOf(h1, e.referrer.value));
      var u := UpdateTag(t, source);
      assert IsWeakSoftReachable(source) <==>
               WeakTag(h1, classTag) || IsWeakSoftReachable(StateOf(h1, TagOf(h1, e.referrer.value)));
      assert after == SetAttribute(u.state, true, VISITED_BIT);
      OtherBitsKept(after, u.state, VISITED_BIT, WEAK_SOFT_BIT);
    } else {
      assert after == SetAttribute(t.state, true, VISITED_BIT);
      OtherBitsKept(after, t.state, VISITED_BIT, WEAK_SOFT_BIT);
    }
  }

  /**
   * The static tag of the reference classes follows the ordinary rule: a
   * reference to a reference class from an object whose tag is not weak
   * leaves the shared tag strong, even when it started weak.
   */
  lemma StaticTagTurnsStrong(c: ObjId, x: ObjId, kind: int, info: Infos.HeapReferenceInfo)
    requires c != x
    ensures var h := EmptyHeap(true).(slots := map[c := WEAK_SOFT_REFERENCE_TAG]);
            var after := CollectPaths(h, Edge(kind, Some(x), c), 0, info);
            && IsWeakSoftReachable(h.store[WEAK_SOFT_REFERENCE_TAG].state)
            && !IsWeakSoftReachable(after.store[WEAK_SOFT_REFERENCE_TAG].state)
  {
  }

  /** A fresh tag is weak exactly when the referrer's class tag is. */
  lemma NewTagWeakFromClass(h: Heap, e: Edge, classTag: int)
    requires Valid(h) && TagOf(h, e.referee) == 0
    ensures var h1 := Reached(h, e, classTag);
            var s := h1.store[TagOf(h1, e.referee)].state;
            !IsAlreadyVisited(s) && (IsWeakSoftReachable(s) <==> WeakTag(h, classTag))
  {
  }

  /** The JVMTI tags of the heap, changed in place by the traversal and the tagging loops. */
  class PathsAgent {
    var slots: map<ObjId, int>
    var store: map<int, GcTagRec>
    var next: int
    var balance: int

    function Snapshot(): Heap
      reads this
    {
      Heap(slots, store, next, balance)
    }

    /** The agent's tags before the query; `staticWeak` is the static tag's initial weak flag. */
    constructor(staticWeak: bool)
      ensures Snapshot() == EmptyHeap(staticWeak)
    {
      slots := map[];
      store := map[WEAK_SOFT_REFERENCE_TAG := GcTagRec(Create(false, staticWeak), [])];
      next := WEAK_SOFT_REFERENCE_TAG + 1;
      balance := 0;
    }

    /** `collectPaths` on the tags in place; it always returns `JVMTI_VISIT_OBJECTS`. */
    method CollectPathsCallback(e: Edge, classTag: int, info: Infos.HeapReferenceInfo) returns (v: Visit)
      requires Valid(Snapshot())
      modifies this
      ensures v == VisitObjects
      ensures Snapshot() == CollectPaths(old(Snapshot()), e, classTag, info)
    {
      if TagOf(Snapshot(), e.referee) == 0 {
        var weak := classTag != 0 && IsWeakSoftReachable(StateOf(Snapshot(), classTag));
        store := store[next := GcTagRec(Create(false, weak), [])];
        slots := slots[e.referee := next];
        next := next + 1;
        balance := balance + 1;
      }
      assert Snapshot() == Reached(old(Snapshot()), e, classTag);
      var p := slots[e.referee];
      store := store[p := Recorded(Snapshot(), store[p], e, classTag, info)];
      v := VisitObjects;
    }

    /**
     * `FollowReferences` from the heap roots with `collectPaths`: the
     * references JVMTI reports, each with its referrer's class tag and
     * details, in order.
     */
    method FollowReferences(edges: seq<(Edge, int, Infos.HeapReferenceInfo)>)
      requires Valid(Snapshot())
      modifies this
      ensures Valid(Snapshot())
      ensures Snapshot() == FollowAll(old(Snapshot()), edges)
    {
      ghost var h0 := Snapshot();
      for i := 0 to |edges|
        invariant Snapshot() == FollowAll(h0, edges[..i])
      {
        FollowOne(h0, edges, i);
      }
      assert edges[..|edges|] == edges;
    }

    /** One reported reference: the callback on the heap the earlier ones left. */
    method FollowOne(ghost h0: Heap, edges: seq<(Edge, int, Infos.HeapReferenceInfo)>, i: nat)
      requires Valid(h0) && i < |edges| && Snapshot() == FollowAll(h0, edges[..i])
      modifies this
      ensures Snapshot() == FollowAll(h0, edges[..i + 1])
    {
      var e := edges[i];
      FollowAllLast(h0, edges, i);
      var _ := CollectPathsCallback(e.0, e.1, e.2);
    }

    /**
     * `setTagsForReferences`: every loaded class assignable to one of the
     * three reference classes (index 0, 1, 2: soft, weak, phantom) gets the
     * given tag.
     */
    method SetTagsForReferences(classes: seq<ObjId>, assignable: (int, ObjId) -> bool, tag: int)
      modifies this
      ensures store == old(store) && next == old(next) && balance == old(balance)
      ensures slots == TagReferenceClasses(old(slots), classes, assignable, tag)
    {
      for i := 0 to |classes|
        invariant store == old(store) && next == old(next) && balance == old(balance)
        invariant slots == TagReferenceClasses(old(slots), classes[..i], assignable, tag)
      {
        assert classes[..i + 1][..i] == classes[..i];
        for j := 0 to 3
          invariant slots == TagReferenceClasses(old(slots), classes[..i], assignable, tag)
          invariant forall k :: 0 <= k < j ==> !assignable(k, classes[i])
        {
          if assignable(j, classes[i]) {
            slots := slots[classes[i] := tag];
            break;
          }
        }
      }
      assert classes[..|classes|] == classes;
    }

    /**
     * `createTags`: the reference classes get the static weak tag, the
     * target a fresh default tag, and the traversal runs. Returns the
     * target's tag.
     */
    method CreateTags(classes: seq<ObjId>, assignable: (int, ObjId) -> bool, target: ObjId,
                      edges: seq<(Edge, int, Infos.HeapReferenceInfo)>)
      returns (start: int)
      requires Valid(Snapshot())
      modifies this
      ensures Valid(Snapshot())
      ensures start == old(next) && start !in old(store)
      ensures Snapshot() == FollowAll(StartTagged(ReferenceTagged(old(Snapshot()), classes, assignable), target), edges)
    {
      SetTagsForReferences(classes, assignable, WEAK_SOFT_REFERENCE_TAG);
      assert Snapshot() == ReferenceTagged(old(Snapshot()), classes, assignable);
      start := TagTarget(target);
      FollowReferences(edges);
    }

    /** `GcTag::create()` set as the target's tag. */
    method TagTarget(target: ObjId) returns (start: int)
      requires Valid(Snapshot())
      modifies this
      ensures start == old(next) && Snapshot() == StartTagged(old(Snapshot()), target)
    {
      start := next;
      store := store[next := GcTagRec(Create(false, false), [])];
      slots := slots[target := next];
      next := next + 1;
      balance := balance + 1;
    }

    /**
     * `cleanHeap`: every tag is removed from the heap, and `cleanTag`
     * destroys the tag of every tagged object not holding the static weak
     * tag, one balance unit each. Returns whether `rootsTagBalance` is back
     * to 0, the condition `fatal` reports.
     */
    method CleanHeap(objs: seq<ObjId>) returns (balanced: bool)
      modifies this
      ensures slots == map[] && next == old(next)
      ensures store == map p | p in old(store) && p !in CleanedTags(old(slots), objs) :: old(store)[p]
      ensures balance == old(balance) - CountCleaned(old(slots), objs)
      ensures balanced <==> balance == 0
    {
      for i := 0 to |objs|
        invariant balance == old(balance) - CountCleaned(old(slots), objs[..i])
        invariant store == map p | p in old(store) && p !in CleanedTags(old(slots), objs[..i]) :: old(store)[p]
        invariant next == old(next) && slots == old(slots)
      {
        assert objs[..i + 1][..i] == objs[..i];
        var t := if objs[i] in slots then slots[objs[i]] else 0;
        if t != 0 && t != WEAK_SOFT_REFERENCE_TAG {
          balance := balance - 1;
          store := map p | p in store && p != t :: store[p];
        }
      }
      assert objs[..|objs|] == objs;
      slots := map[];
      balanced := balance == 0;
    }
  }

  /** The heap after `collectPaths` ran on each of `edges` in turn. */
  function FollowAll(h: Heap, edges: seq<(Edge, int, Infos.HeapReferenceInfo)>): (r: Heap)
    requires Valid(h)
    ensures Valid(r)
    decreases |edges|
  {
    if edges == [] then h
    else
      var last := edges[|edges| - 1];
      var h1 := FollowAll(h, edges[..|edges| - 1]);
      CollectPathsKeepsValid(h1, last.0, last.1, last.2);
      CollectPaths(h1, last.0, last.1, last.2)
  }

  lemma FollowAllLast(h: Heap, edges: seq<(Edge, int, Infos.HeapReferenceInfo)>, i: nat)
    requires Valid(h) && i < |edges|
    ensures FollowAll(h, edges[..i + 1]) == CollectPaths(FollowAll(h, edges[..i]), edges[i].0, edges[i].1, edges[i].2)
  {
    assert edges[..i + 1][..i] == edges[..i];
  }

  /** The tags after `setTagsForReferences`. */
  function TagReferenceClasses(slots: map<ObjId, int>, classes: seq<ObjId>, assignable: (int, ObjId) -> bool, tag: int): map<ObjId, int>
    decreases |classes|
  {
    if classes == [] then slots
    else
      var t := TagReferenceClasses(slots, classes[..|classes| - 1], assignable, tag);
      var c := classes[|classes| - 1];
      if assignable(0, c) || assignable(1, c) || assignable(2, c) then t[c := tag] else t
  }

  /** Exactly the loaded classes assignable to a reference class get the tag; other objects keep theirs. */
  lemma {:induction false} TagReferenceClassesTags(slots: map<ObjId, int>, classes: seq<ObjId>,
                                                   assignable: (int, ObjId) -> bool, tag: int, o: ObjId)
    ensures var r := TagReferenceClasses(slots, classes, assignable, tag);
            (o in classes && (assignable(0, o) || assignable(1, o) || assignable(2, o)) ==> o in r && r[o] == tag)
            && (!(o in classes && (assignable(0, o) || assignable(1, o) || assignable(2, o))) ==>
                  (o in r <==> o in slots) && (o in slots ==> r[o] == slots[o]))
    decreases |classes|
  {
    if classes != [] {
      var front := classes[..|classes| - 1];
      TagReferenceClassesTags(slots, front, assignable, tag, o);
      assert o in classes <==> o in front || o == classes[|classes| - 1];
    }
  }

  /** The heap once the reference classes hold the static weak tag; it stays well formed. */
  function ReferenceTagged(h: Heap, classes: seq<ObjId>, assignable: (int, ObjId) -> bool): (r: Heap)
    requires Valid(h)
    ensures Valid(r) && r == h.(slots := TagReferenceClasses(h.slots, classes, assignable, WEAK_SOFT_REFERENCE_TAG))
  {
    var s := TagReferenceClasses(h.slots, classes, assignable, WEAK_SOFT_REFERENCE_TAG);
    assert forall o | o in s :: s[o] == 0 || s[o] in h.store by {
      forall o | o in s ensures s[o] == 0 || s[o] in h.store {
        TagReferenceClassesTags(h.slots, classes, assignable, WEAK_SOFT_REFERENCE_TAG, o);
      }
    }
    h.(slots := s)
  }

  /** The heap once the target holds a fresh default tag. */
  function StartTagged(h: Heap, target: ObjId): (r: Heap)
    requires Valid(h)
    ensures Valid(r) && TagOf(r, target) == h.next && r.balance == h.balance + 1
    ensures r.store[h.next] == GcTagRec(Create(false, false), [])
  {
    Heap(h.slots[target := h.next], h.store[h.next := GcTagRec(Create(false, false), [])], h.next + 1, h.balance + 1)
  }

  /** The tags `cleanHeap` destroys. */
  function CleanedTags(slots: map<ObjId, int>, objs: seq<ObjId>): set<int>
    decreases |objs|
  {
    if objs == [] then {}
    else
      var t := if objs[|objs| - 1] in slots then slots[objs[|objs| - 1]] else 0;
      CleanedTags(slots, objs[..|objs| - 1]) + (if t != 0 && t != WEAK_SOFT_REFERENCE_TAG then {t} else {})
  }

  /** How many of `objs` `cleanHeap` hands to `cleanTag`: every tagged one not holding the static tag. */
  function CountCleaned(slots: map<ObjId, int>, objs: seq<ObjId>): nat
    decreases |objs|
  {
    if objs == [] then 0
    else
      var t := if objs[|objs| - 1] in slots then slots[objs[|objs| - 1]] else 0;
      CountCleaned(slots, objs[..|objs| - 1]) + (if t != 0 && t != WEAK_SOFT_REFERENCE_TAG then 1 else 0)
  }
}
