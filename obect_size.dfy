/**
 * `obect_size`, the first retained-size prototype. Every object it reaches
 * gets a three-flag `Tag` (see `Utils.Tag`): the start object is in the
 * subtree and not reachable from outside; the reference callback spreads
 * "in the subtree" from referrer to referee and "reachable from outside"
 * from heap roots, untagged referrers and reachable-outside referrers to
 * every referee but the start object. The retained size is the total size
 * of the subtree objects that are not reachable from outside.
 *
 * The jlong tag of an object is the address of its `Tag`: the model keeps
 * the tags in a store keyed by address, hands out fresh addresses from
 * `next`, and counts the tags created and not yet deleted in `balance`
 * (`tag_balance_for_sizes`).
 */
module ObectSize {
  import opened Jvmti
  import opened Utils

  /** The tag slots, the tags, the next fresh address, the balance and the `tags` vector. */
  datatype Heap = Heap(slots: map<ObjId, int>, store: map<int, Tag>, next: int, balance: int, tags: seq<int>)

  /** The tag in `o`'s slot, 0 for an untagged object. */
  function TagOf(h: Heap, o: ObjId): int {
    if o in h.slots then h.slots[o] else 0
  }

  /** Every address in use is below `next`, and every tagged slot holds a tag of the store. */
  predicate Valid(h: Heap) {
    0 < h.next
    && (forall p :: p in h.store ==> 0 < p < h.next)
    && (forall o :: o in h.slots && h.slots[o] != 0 ==> h.slots[o] in h.store)
  }

  /** `createTag`: a new tag at a fresh address, counted in the balance. */
  function CreateTag(h: Heap, t: Tag): (r: (Heap, int))
    ensures r.1 == h.next && r.0.next == h.next + 1 && r.0.balance == h.balance + 1
    ensures r.0.store == h.store[h.next := t] && r.0.slots == h.slots && r.0.tags == h.tags
  {
    (h.(store := h.store[h.next := t], next := h.next + 1, balance := h.balance + 1), h.next)
  }

  /** The tag at address `p` marked reachable from outside unless it is the start tag. */
  function MarkOutside(h: Heap, p: int): Heap
    requires p in h.store
  {
    if h.store[p].startObject then h else h.(store := h.store[p := h.store[p].(reachableOutside := true)])
  }

  /** The referee's slot filled with a new tag. */
  function TagReferee(h: Heap, referee: ObjId, t: Tag): Heap {
    var (h1, q) := CreateTag(h, t);
    h1.(slots := h1.slots[referee := q])
  }

  /** `cbHeapReference` from a tagged referrer whose tag is at `r`. */
  function FromTagged(h: Heap, r: int, referee: ObjId): Heap
    requires Valid(h) && r in h.store
  {
    var rt := h.store[r];
    var p := TagOf(h, referee);
    if p != 0 then
      var et := h.store[p];
      var et1 := if rt.inSubtree then et.(inSubtree := true) else et;
      var et2 := if rt.reachableOutside && !et.startObject then et1.(reachableOutside := true) else et1;
      h.(store := h.store[p := et2], tags := if rt.inSubtree then h.tags + [p] else h.tags)
    else
      var (h1, q) := CreateTag(h, Tag(rt.inSubtree, rt.reachableOutside, false));
      h1.(slots := h1.slots[referee := q], tags := if rt.inSubtree then h1.tags + [q] else h1.tags)
  }

  /**
   * `cbHeapReference` from an untagged referrer. As written, the referrer's
   * new tag is stored last, so on a reference of an untagged object to
   * itself it replaces the referee's new tag, which is never deleted.
   */
  function FromUntagged(h: Heap, referrer: ObjId, referee: ObjId): Heap
    requires Valid(h)
  {
    var (h1, q) := CreateTag(h, Tag(false, true, false));
    var p := TagOf(h1, referee);
    var h2 := if p != 0 then MarkOutside(h1, p) else TagReferee(h1, referee, Tag(false, true, false));
    h2.(slots := h2.slots[referrer := q])
  }

  /** `cbHeapReference`; JVMTI always passes the referee's tag slot, so it never aborts. */
  function Reference(h: Heap, e: Edge): (r: Heap)
    requires Valid(h)
  {
    if IsIgnoredReference(e.kind) then h
    else if e.referrer.None? then
      var p := TagOf(h, e.referee);
      if p != 0 then MarkOutside(h, p) else TagReferee(h, e.referee, Tag(false, true, false))
    else if TagOf(h, e.referrer.value) != 0 then FromTagged(h, TagOf(h, e.referrer.value), e.referee)
    else FromUntagged(h, e.referrer.value, e.referee)
  }

  /** Every callback keeps the heap valid. */
  lemma ReferenceKeepsValid(h: Heap, e: Edge)
    requires Valid(h)
    ensures Valid(Reference(h, e))
    ensures Reference(h, e).next >= h.next
  {
  }

  predicate IsStart(h: Heap, o: ObjId) {
    TagOf(h, o) in h.store && h.store[TagOf(h, o)].startObject
  }

  predicate Outside(h: Heap, o: ObjId) {
    TagOf(h, o) in h.store && h.store[TagOf(h, o)].reachableOutside
  }

  predicate InSubtree(h: Heap, o: ObjId) {
    TagOf(h, o) in h.store && h.store[TagOf(h, o)].inSubtree
  }

  /** The referrer passes "reachable from outside" on: a heap root, an untagged referrer, or a reachable-outside one. */
  predicate ReferrerOutside(h: Heap, referrer: Option<ObjId>) {
    referrer.None? || TagOf(h, referrer.value) == 0 || Outside(h, referrer.value)
  }

  /**
   * The flags of the referee after a followed reference: it is tagged, it
   * is reachable from outside if it was or if the referrer passes that on
   * and it is not the start object, and it is in the subtree if it was or
   * if the referrer is.
   */
  lemma ReferenceFlags(h: Heap, e: Edge)
    requires Valid(h) && !IsIgnoredReference(e.kind)
    ensures var r := Reference(h, e);
            TagOf(r, e.referee) in r.store
            && (Outside(r, e.referee) <==>
                  Outside(h, e.referee) || (!IsStart(h, e.referee) && ReferrerOutside(h, e.referrer)))
            && (InSubtree(r, e.referee) <==>
                  InSubtree(h, e.referee) || (e.referrer.Some? && InSubtree(h, e.referrer.value)))
            && IsStart(r, e.referee) == IsStart(h, e.referee)
  {
  }

  /** The start object is tagged with the only start tag, in the subtree and not reachable from outside. */
  predicate StartKept(h: Heap, start: ObjId) {
    var sp := TagOf(h, start);
    sp in h.store && h.store[sp].startObject && h.store[sp].inSubtree && !h.store[sp].reachableOutside
    && forall p :: p in h.store && p != sp ==> !h.store[p].startObject
  }

  /** No reference ever makes the start object reachable from outside or moves its tag. */
  lemma ReferenceKeepsStart(h: Heap, e: Edge, start: ObjId)
    requires Valid(h) && StartKept(h, start)
    ensures StartKept(Reference(h, e), start) && TagOf(Reference(h, e), start) == TagOf(h, start)
  {
  }

  /**
   * The tags are attached one to one: the store holds exactly the tags in
   * the slots, no two slots share a tag, and the balance counts them.
   */
  predicate Attached(h: Heap) {
    (forall p :: p in h.store ==> exists o :: o in h.slots && h.slots[o] == p)
    && (forall o :: o in h.slots ==> h.slots[o] != 0)
    && (forall o1, o2 :: o1 in h.slots && o2 in h.slots && o1 != o2 ==> h.slots[o1] != h.slots[o2])
    && h.balance == |h.store|
  }

  /** A reference of an untagged object to itself, the one case that loses a tag. */
  predicate UntaggedSelfReference(h: Heap, e: Edge) {
    !IsIgnoredReference(e.kind) && e.referrer == Some(e.referee) && TagOf(h, e.referee) == 0
  }

  /**
   * As written, an untagged object referring to itself ends with one tag
   * that no slot holds: two tags are counted, one object is tagged.
   */
  lemma SelfReferenceLeaksTag()
    ensures var h := Heap(map[], map[], 1, 0, []);
            var r := Reference(h, Edge(STATIC_FIELD, Some(7), 7));
            UntaggedSelfReference(h, Edge(STATIC_FIELD, Some(7), 7))
            && r.balance == 2 && r.slots == map[7 := 1] && 2 in r.store
  {
  }

  /** The evidently intended callback: an untagged object referring to itself gets a single tag. */
  function CorrectedReference(h: Heap, e: Edge): (r: Heap)
    requires Valid(h)
  {
    if UntaggedSelfReference(h, e) then TagReferee(h, e.referee, Tag(false, true, false))
    else Reference(h, e)
  }

  lemma CreateTagKeepsAttached(h: Heap, o: ObjId, t: Tag)
    requires Valid(h) && Attached(h) && TagOf(h, o) == 0
    ensures Attached(TagReferee(h, o, t)) && Valid(TagReferee(h, o, t))
  {
    var r := TagReferee(h, o, t);
    forall p | p in r.store
      ensures exists o' :: o' in r.slots && r.slots[o'] == p
    {
      if p == h.next {
        assert r.slots[o] == p;
      } else {
        var o' :| o' in h.slots && h.slots[o'] == p;
        assert r.slots[o'] == p;
      }
    }
    assert h.next !in h.store;
    assert |r.store| == |h.store| + 1;
  }

  lemma FlagChangeKeepsAttached(h: Heap, r: Heap)
    requires Attached(h) && r.slots == h.slots && r.store.Keys == h.store.Keys && r.balance == h.balance
    ensures Attached(r)
  {
    assert |r.store| == |r.store.Keys| == |h.store.Keys| == |h.store|;
  }

  /** With two distinct objects, storing the referrer's new tag first gives the same heap. */
  lemma UntaggedReferrerFirst(h: Heap, referrer: ObjId, referee: ObjId)
    requires Valid(h) && referrer != referee
    ensures var h1 := TagReferee(h, referrer, Tag(false, true, false));
            var p := TagOf(h1, referee);
            p == TagOf(h, referee) && (p != 0 ==> p in h1.store)
            && FromUntagged(h, referrer, referee) ==
               if p != 0 then MarkOutside(h1, p) else TagReferee(h1, referee, Tag(false, true, false))
  {
    var t := Tag(false, true, false);
    var h1 := TagReferee(h, referrer, t);
    var (c, q) := CreateTag(h, t);
    var p := TagOf(c, referee);
    assert TagOf(h1, referee) == p;
    if p != 0 {
      var m := MarkOutside(c, p);
      assert m.(slots := m.slots[referrer := q]) == MarkOutside(h1, p);
    } else {
      var m := TagReferee(c, referee, t);
      assert m.(slots := m.slots[referrer := q]) == TagReferee(h1, referee, t);
    }
  }

  /** A reference from an untagged referrer to another object keeps every tag attached. */
  lemma UntaggedReferrerKeepsAttached(h: Heap, e: Edge)
    requires Valid(h) && Attached(h) && !IsIgnoredReference(e.kind) && e.referrer.Some?
    requires TagOf(h, e.referrer.value) == 0 && e.referrer.value != e.referee
    ensures Attached(Reference(h, e))
  {
    var referrer := e.referrer.value;
    var t := Tag(false, true, false);
    var h1 := TagReferee(h, referrer, t);
    CreateTagKeepsAttached(h, referrer, t);
    UntaggedReferrerFirst(h, referrer, e.referee);
    var p := TagOf(h1, e.referee);
    if p != 0 {
      FlagChangeKeepsAttached(h1, MarkOutside(h1, p));
    } else {
      CreateTagKeepsAttached(h1, e.referee, t);
    }
  }

  /** A reference from a tagged referrer keeps every tag attached. */
  lemma TaggedReferrerKeepsAttached(h: Heap, e: Edge)
    requires Valid(h) && Attached(h) && !IsIgnoredReference(e.kind) && e.referrer.Some?
    requires TagOf(h, e.referrer.value) != 0
    ensures Attached(Reference(h, e))
  {
    var rt := h.store[TagOf(h, e.referrer.value)];
    if TagOf(h, e.referee) != 0 {
      FlagChangeKeepsAttached(h, Reference(h, e));
    } else {
      CreateTagKeepsAttached(h, e.referee, Tag(rt.inSubtree, rt.reachableOutside, false));
      var t := TagReferee(h, e.referee, Tag(rt.inSubtree, rt.reachableOutside, false));
      assert Reference(h, e).slots == t.slots && Reference(h, e).store == t.store;
      assert Reference(h, e).balance == t.balance;
    }
  }

  /** The corrected callback keeps every tag attached to exactly one object. */
  lemma CorrectedKeepsAttached(h: Heap, e: Edge)
    requires Valid(h) && Attached(h)
    ensures Attached(CorrectedReference(h, e)) && Valid(CorrectedReference(h, e))
  {
    ReferenceKeepsValid(h, e);
    if UntaggedSelfReference(h, e) {
      CreateTagKeepsAttached(h, e.referee, Tag(false, true, false));
    } else if IsIgnoredReference(e.kind) {
    } else if e.referrer.None? {
      if TagOf(h, e.referee) != 0 {
        FlagChangeKeepsAttached(h, Reference(h, e));
      } else {
        CreateTagKeepsAttached(h, e.referee, Tag(false, true, false));
      }
    } else if TagOf(h, e.referrer.value) != 0 {
      TaggedReferrerKeepsAttached(h, e);
    } else {
      UntaggedReferrerKeepsAttached(h, e);
    }
  }

  /** The corrected callback never makes the start object reachable from outside either. */
  lemma CorrectedKeepsStart(h: Heap, e: Edge, start: ObjId)
    requires Valid(h) && StartKept(h, start)
    ensures StartKept(CorrectedReference(h, e), start)
    ensures TagOf(CorrectedReference(h, e), start) == TagOf(h, start)
  {
    if !UntaggedSelfReference(h, e) {
      ReferenceKeepsStart(h, e, start);
    }
  }

  /**
   * The `tags` vector lists exactly the tags in the subtree: each listed
   * tag is stored and in the subtree, and each stored subtree tag is listed.
   */
  predicate SubtreeListed(h: Heap) {
    (forall i :: 0 <= i < |h.tags| ==> h.tags[i] in h.store && h.store[h.tags[i]].inSubtree)
    && (forall p :: p in h.store && h.store[p].inSubtree ==> p in h.tags)
  }

  lemma TaggedReferrerKeepsListed(h: Heap, e: Edge)
    requires Valid(h) && SubtreeListed(h) && !IsIgnoredReference(e.kind) && e.referrer.Some?
    requires TagOf(h, e.referrer.value) != 0
    ensures SubtreeListed(Reference(h, e))
  {
    var r := Reference(h, e);
    assert forall i :: 0 <= i < |h.tags| ==> r.tags[i] == h.tags[i];
  }

  lemma UntaggedReferrerKeepsListed(h: Heap, e: Edge)
    requires Valid(h) && SubtreeListed(h) && !IsIgnoredReference(e.kind) && e.referrer.Some?
    requires TagOf(h, e.referrer.value) == 0
    ensures SubtreeListed(Reference(h, e))
  {
    var (c, q) := CreateTag(h, Tag(false, true, false));
    assert SubtreeListed(c);
  }

  /** Every callback keeps the `tags` vector exactly the subtree's tags. */
  lemma CorrectedKeepsListed(h: Heap, e: Edge)
    requires Valid(h) && SubtreeListed(h)
    ensures SubtreeListed(CorrectedReference(h, e))
  {
    if UntaggedSelfReference(h, e) || IsIgnoredReference(e.kind) || e.referrer.None? {
    } else if TagOf(h, e.referrer.value) != 0 {
      TaggedReferrerKeepsListed(h, e);
    } else {
      UntaggedReferrerKeepsListed(h, e);
    }
  }

  lemma CorrectedKeepsValid(h: Heap, e: Edge)
    requires Valid(h)
    ensures Valid(CorrectedReference(h, e)) && CorrectedReference(h, e).next >= h.next
  {
    ReferenceKeepsValid(h, e);
  }

  /** The heap after `FollowReferences` reported `edges` in order to the corrected callback. */
  function Follow(h: Heap, edges: seq<Edge>): (r: Heap)
    requires Valid(h)
    ensures Valid(r) && r.next >= h.next
    decreases |edges|
  {
    if edges == [] then h
    else
      var h0 := Follow(h, edges[..|edges| - 1]);
      CorrectedKeepsValid(h0, edges[|edges| - 1]);
      CorrectedReference(h0, edges[|edges| - 1])
  }

  lemma FollowLast(h: Heap, edges: seq<Edge>, e: Edge)
    requires Valid(h)
    ensures Follow(h, edges + [e]) == CorrectedReference(Follow(h, edges), e)
  {
    assert (edges + [e])[..|edges|] == edges;
  }

  lemma {:induction false} FollowKeepsStart(h: Heap, edges: seq<Edge>, start: ObjId)
    requires Valid(h) && StartKept(h, start)
    ensures StartKept(Follow(h, edges), start) && TagOf(Follow(h, edges), start) == TagOf(h, start)
    decreases |edges|
  {
    if edges != [] {
      FollowKeepsStart(h, edges[..|edges| - 1], start);
      CorrectedKeepsStart(Follow(h, edges[..|edges| - 1]), edges[|edges| - 1], start);
    }
  }

  lemma {:induction false} FollowKeepsListed(h: Heap, edges: seq<Edge>)
    requires Valid(h) && SubtreeListed(h)
    ensures SubtreeListed(Follow(h, edges))
    decreases |edges|
  {
    if edges != [] {
      FollowKeepsListed(h, edges[..|edges| - 1]);
      CorrectedKeepsListed(Follow(h, edges[..|edges| - 1]), edges[|edges| - 1]);
    }
  }

  /** With the corrected callback, every tag stays attached to an object (as written it need not: `SelfReferenceLeaksTag`). */
  lemma {:induction false} FollowKeepsAttached(h: Heap, edges: seq<Edge>)
    requires Valid(h) && Attached(h)
    ensures Attached(Follow(h, edges))
    decreases |edges|
  {
    if edges != [] {
      FollowKeepsAttached(h, edges[..|edges| - 1]);
      CorrectedKeepsAttached(Follow(h, edges[..|edges| - 1]), edges[|edges| - 1]);
    }
  }

  /** Every tagged object is one of `objs`. */
  predicate SlotsWithin(h: Heap, objs: seq<ObjId>) {
    forall o :: o in h.slots ==> o in objs
  }

  /** Every referrer and referee of `edges` is one of `objs`. */
  predicate EdgesWithin(edges: seq<Edge>, objs: seq<ObjId>) {
    forall i :: 0 <= i < |edges| ==>
      edges[i].referee in objs && (edges[i].referrer.Some? ==> edges[i].referrer.value in objs)
  }

  /** A callback tags only the referrer and the referee. */
  lemma CorrectedTagsEndpoints(h: Heap, e: Edge, o: ObjId)
    requires Valid(h) && o in CorrectedReference(h, e).slots
    ensures o in h.slots || o == e.referee || e.referrer == Some(o)
  {
  }

  lemma {:induction false} FollowStaysWithin(h: Heap, edges: seq<Edge>, objs: seq<ObjId>)
    requires Valid(h) && SlotsWithin(h, objs) && EdgesWithin(edges, objs)
    ensures SlotsWithin(Follow(h, edges), objs)
    decreases |edges|
  {
    if edges != [] {
      var front := edges[..|edges| - 1];
      assert EdgesWithin(front, objs) by {
        forall i | 0 <= i < |front| ensures front[i] == edges[i] { }
      }
      FollowStaysWithin(h, front, objs);
      var e := edges[|edges| - 1];
      forall o | o in Follow(h, edges).slots ensures o in objs {
        CorrectedTagsEndpoints(Follow(h, front), e, o);
      }
    }
  }

  /** `cbHeapCleanupSizeTags` on one object: a tagged object loses its tag, which is deleted. */
  function CleanupStep(h: Heap, o: ObjId): Heap {
    if TagOf(h, o) != 0 then h.(slots := h.slots - {o}, store := h.store - {h.slots[o]}, balance := h.balance - 1)
    else h
  }

  /** `cleanHeapForSizes`: the cleanup callback on every object of the heap in turn. */
  function Cleanup(h: Heap, objs: seq<ObjId>): Heap
    decreases |objs|
  {
    if objs == [] then h else CleanupStep(Cleanup(h, objs[..|objs| - 1]), objs[|objs| - 1])
  }

  lemma CleanupStepKeepsAttached(h: Heap, o: ObjId)
    requires Valid(h) && Attached(h)
    ensures Valid(CleanupStep(h, o)) && Attached(CleanupStep(h, o)) && o !in CleanupStep(h, o).slots
    ensures CleanupStep(h, o).slots.Keys <= h.slots.Keys
  {
    if TagOf(h, o) != 0 {
      var p := h.slots[o];
      var r := CleanupStep(h, o);
      forall p' | p' in r.store
        ensures exists o' :: o' in r.slots && r.slots[o'] == p'
      {
        var o' :| o' in h.slots && h.slots[o'] == p';
        assert o' != o;
        assert r.slots[o'] == p';
      }
      assert |r.store| == |h.store| - 1;
    }
  }

  /** After cleanup no object of `objs` is tagged and the kept tags are still attached. */
  lemma {:induction false} CleanupUntags(h: Heap, objs: seq<ObjId>)
    requires Valid(h) && Attached(h)
    ensures var r := Cleanup(h, objs);
            Valid(r) && Attached(r) && r.slots.Keys <= h.slots.Keys && forall o :: o in objs ==> o !in r.slots
    decreases |objs|
  {
    if objs != [] {
      var front := objs[..|objs| - 1];
      CleanupUntags(h, front);
      CleanupStepKeepsAttached(Cleanup(h, front), objs[|objs| - 1]);
      assert forall o :: o in objs ==> o in front || o == objs[|objs| - 1];
    }
  }

  /**
   * Cleaning a heap whose tags are all attached to objects of `objs`
   * deletes every tag: nothing is tagged and the balance is back to zero.
   */
  lemma CleanupBalancesTags(h: Heap, objs: seq<ObjId>)
    requires Valid(h) && Attached(h) && SlotsWithin(h, objs)
    ensures Cleanup(h, objs).balance == 0 && Cleanup(h, objs).slots == map[] && Cleanup(h, objs).store == map[]
  {
    CleanupUntags(h, objs);
    var r := Cleanup(h, objs);
    assert r.slots == map[];
    assert forall p :: p !in r.store;
  }

  /** The heap `estimateObjectSize` follows from: the start object tagged `(start, in subtree, not outside)`. */
  function StartTagged(h: Heap, start: ObjId): (r: Heap)
    requires Valid(h)
    ensures Valid(r)
  {
    var (h1, p) := CreateTag(h, Tag(true, false, true));
    h1.(slots := h1.slots[start := p], tags := [p])
  }

  /** The objects `GetObjectsWithTags` returns: those of `objs` whose tag is listed in `tags`. */
  function Found(h: Heap, objs: seq<ObjId>): (r: seq<ObjId>)
    ensures forall o :: o in r <==> o in objs && TagOf(h, o) in h.tags
    decreases |objs|
  {
    if objs == [] then []
    else if TagOf(h, objs[0]) in h.tags then [objs[0]] + Found(h, objs[1..])
    else Found(h, objs[1..])
  }

  /** The sizes, from `sizeOf`, of the objects of `objs` that are not reachable from outside. */
  function RetainedSum(h: Heap, objs: seq<ObjId>, sizeOf: ObjId -> nat): (r: nat)
    decreases |objs|
  {
    if objs == [] then 0
    else (if Outside(h, objs[0]) then 0 else sizeOf(objs[0])) + RetainedSum(h, objs[1..], sizeOf)
  }

  /** The sizes of the objects of `objs` that are in the subtree and not reachable from outside. */
  function SubtreeRetained(h: Heap, objs: seq<ObjId>, sizeOf: ObjId -> nat): (r: nat)
    decreases |objs|
  {
    if objs == [] then 0
    else (if InSubtree(h, objs[0]) && !Outside(h, objs[0]) then sizeOf(objs[0]) else 0)
         + SubtreeRetained(h, objs[1..], sizeOf)
  }

  /** Summing the found objects that are not reachable from outside sums the retained part of the subtree. */
  lemma {:induction false} FoundIsSubtree(h: Heap, objs: seq<ObjId>, sizeOf: ObjId -> nat)
    requires SubtreeListed(h)
    ensures RetainedSum(h, Found(h, objs), sizeOf) == SubtreeRetained(h, objs, sizeOf)
    decreases |objs|
  {
    if objs != [] {
      FoundIsSubtree(h, objs[1..], sizeOf);
      var o := objs[0];
      if TagOf(h, o) in h.tags {
        var i :| 0 <= i < |h.tags| && h.tags[i] == TagOf(h, o);
        assert InSubtree(h, o);
        assert ([o] + Found(h, objs[1..]))[1..] == Found(h, objs[1..]);
      } else {
        assert !InSubtree(h, o);
      }
    }
  }

  /** Nothing is tagged and the balance is zero, as after a completed size estimate. */
  predicate Clean(h: Heap) {
    h.slots == map[] && h.store == map[] && h.balance == 0
  }

  /** The heap at the end of `FollowReferences` in `estimateObjectSize`. */
  function Followed(h: Heap, start: ObjId, edges: seq<Edge>): (r: Heap)
    requires Valid(h)
  {
    Follow(StartTagged(h, start), edges)
  }

  /**
   * From a clean heap, the start object keeps its tag: in the subtree,
   * never reachable from outside, the only start object; and the `tags`
   * vector lists exactly the objects in the subtree.
   */
  lemma FollowedStart(h: Heap, start: ObjId, edges: seq<Edge>)
    requires Valid(h) && Clean(h)
    ensures StartKept(Followed(h, start, edges), start)
    ensures InSubtree(Followed(h, start, edges), start) && !Outside(Followed(h, start, edges), start)
    ensures SubtreeListed(Followed(h, start, edges))
  {
    var h1 := StartTagged(h, start);
    assert StartKept(h1, start);
    assert SubtreeListed(h1);
    FollowKeepsStart(h1, edges, start);
    FollowKeepsListed(h1, edges);
  }

  /**
   * The retained size `estimateObjectSize` computes from a clean heap is
   * the total size of the subtree objects not reachable from outside, and
   * counts the start object whenever it is one of the heap's objects.
   */
  lemma EstimateIsRetainedSubtree(h: Heap, start: ObjId, edges: seq<Edge>, objs: seq<ObjId>, sizeOf: ObjId -> nat)
    requires Valid(h) && Clean(h)
    ensures var hf := Followed(h, start, edges);
            RetainedSum(hf, Found(hf, objs), sizeOf) == SubtreeRetained(hf, objs, sizeOf)
    ensures start in objs ==> SubtreeRetained(Followed(h, start, edges), objs, sizeOf) >= sizeOf(start)
  {
    var hf := Followed(h, start, edges);
    FollowedStart(h, start, edges);
    FoundIsSubtree(hf, objs, sizeOf);
    if start in objs {
      StartCounted(hf, objs, start, sizeOf);
    }
  }

  lemma {:induction false} StartCounted(h: Heap, objs: seq<ObjId>, start: ObjId, sizeOf: ObjId -> nat)
    requires start in objs && InSubtree(h, start) && !Outside(h, start)
    ensures SubtreeRetained(h, objs, sizeOf) >= sizeOf(start)
    decreases |objs|
  {
    if objs[0] != start {
      StartCounted(h, objs[1..], start, sizeOf);
    }
  }

  /**
   * When every referrer, every referee and the start object are objects of
   * the heap, the cleanup after the estimate deletes every tag it created:
   * the heap is clean again and the tag balance is zero.
   */
  lemma EstimateBalancesTags(h: Heap, start: ObjId, edges: seq<Edge>, objs: seq<ObjId>)
    requires Valid(h) && Clean(h)
    requires start in objs && EdgesWithin(edges, objs)
    ensures Clean(Cleanup(Followed(h, start, edges), objs))
  {
    var h1 := StartTagged(h, start);
    CreateTagKeepsAttached(h, start, Tag(true, false, true));
    assert Attached(h1);
    FollowKeepsAttached(h1, edges);
    FollowStaysWithin(h1, edges, objs);
    CleanupBalancesTags(Followed(h, start, edges), objs);
  }

  /**
   * The agent's state: the objects' tag slots, the tags they point to, the
   * next free address and `tag_balance_for_sizes`.
   */
  class SizesAgent {
    var slots: map<ObjId, int>
    var store: map<int, Tag>
    var next: int
    var balance: int

    /** The state with the `tags` vector of a traversal. */
    function Snapshot(tags: seq<int>): Heap
      reads this
    {
      Heap(slots, store, next, balance, tags)
    }

    /** An agent loaded into a heap without tags. */
    constructor()
      ensures Valid(Snapshot([])) && Clean(Snapshot([]))
    {
      slots := map[];
      store := map[];
      next := 1;
      balance := 0;
    }

    /** `createTag`: a new tag at a fresh address, counted in the balance. */
    method NewTag(t: Tag) returns (p: int)
      modifies this
      ensures p == old(next) && next == old(next) + 1 && balance == old(balance) + 1
      ensures store == old(store)[p := t] && slots == old(slots)
    {
      p := next;
      store := store[p := t];
      next := next + 1;
      balance := balance + 1;
    }

    /** Marks the tag at `p` reachable from outside unless it is the start tag. */
    method MarkOutsideTag(p: int)
      requires p in store
      modifies this
      ensures Snapshot([]) == MarkOutside(old(Snapshot([])), p)
    {
      if !store[p].startObject {
        store := store[p := store[p].(reachableOutside := true)];
      }
    }

    /**
     * `cbHeapReference` with the self-reference of an untagged object
     * corrected; it always lets the traversal go on.
     */
    method CbHeapReference(e: Edge, tags: seq<int>) returns (v: Visit, tags': seq<int>)
      requires Valid(Snapshot(tags))
      modifies this
      ensures v == VisitObjects
      ensures Snapshot(tags') == CorrectedReference(old(Snapshot(tags)), e)
    {
      v := VisitObjects;
      tags' := tags;
      if IsIgnoredReference(e.kind) {
        return;
      }
      var referee := e.referee;
      var p := TagOf(Snapshot(tags), referee);
      if e.referrer.None? {
        if p != 0 {
          MarkOutsideTag(p);
        } else {
          var q := NewTag(Tag(false, true, false));
          slots := slots[referee := q];
        }
        return;
      }
      var referrer := e.referrer.value;
      var rp := TagOf(Snapshot(tags), referrer);
      if rp != 0 {
        var rt := store[rp];
        if p != 0 {
          var et := store[p];
          if rt.inSubtree {
            et := et.(inSubtree := true);
            tags' := tags' + [p];
          }
          if rt.reachableOutside && !et.startObject {
            et := et.(reachableOutside := true);
          }
          store := store[p := et];
        } else {
          var q := NewTag(Tag(rt.inSubtree, rt.reachableOutside, false));
          slots := slots[referee := q];
          if rt.inSubtree {
            tags' := tags' + [q];
          }
        }
      } else if referrer == referee {
        var q := NewTag(Tag(false, true, false));
        slots := slots[referee := q];
      } else {
        var q := NewTag(Tag(false, true, false));
        if p != 0 {
          MarkOutsideTag(p);
        } else {
          var q2 := NewTag(Tag(false, true, false));
          slots := slots[referee := q2];
        }
        slots := slots[referrer := q];
      }
    }

    /** `cleanHeapForSizes`: every object's tag deleted in heap order. */
    method CleanHeapForSizes(objs: seq<ObjId>, ghost tags: seq<int>)
      modifies this
      ensures Snapshot(tags) == Cleanup(old(Snapshot(tags)), objs)
    {
      for i := 0 to |objs|
        invariant Snapshot(tags) == Cleanup(old(Snapshot(tags)), objs[..i])
      {
        assert objs[..i + 1][..i] == objs[..i];
        var o := objs[i];
        if o in slots && slots[o] != 0 {
          store := store - {slots[o]};
          slots := slots - {o};
          balance := balance - 1;
        }
      }
      assert objs[..|objs|] == objs;
    }

    /** `FollowReferences` with the corrected size callback (`CbHeapReference`), reporting `edges` in order. */
    method FollowReferences(edges: seq<Edge>, tags: seq<int>) returns (tags': seq<int>)
      requires Valid(Snapshot(tags))
      modifies this
      ensures Valid(old(Snapshot(tags))) && Snapshot(tags') == Follow(old(Snapshot(tags)), edges)
    {
      ghost var h1 := Snapshot(tags);
      tags' := tags;
      var i := 0;
      while i < |edges|
        invariant 0 <= i <= |edges|
        invariant Valid(Snapshot(tags')) && Snapshot(tags') == Follow(h1, edges[..i])
      {
        var v;
        v, tags' := CbHeapReference(edges[i], tags');
        FollowLast(h1, edges[..i], edges[i]);
        assert edges[..i + 1] == edges[..i] + [edges[i]];
        i := i + 1;
      }
      assert edges[..|edges|] == edges;
    }

    /** The loop of `estimateObjectSize` adding up the sizes of the found objects not reachable from outside. */
    static method SumRetained(hf: Heap, found: seq<ObjId>, sizeOf: ObjId -> nat) returns (retainedSize: int)
      ensures retainedSize == RetainedSum(hf, found, sizeOf)
    {
      retainedSize := 0;
      for k := 0 to |found|
        invariant retainedSize + RetainedSum(hf, found[k..], sizeOf) == RetainedSum(hf, found, sizeOf)
      {
        assert found[k..][1..] == found[k + 1..];
        if !Outside(hf, found[k]) {
          retainedSize := retainedSize + sizeOf(found[k]);
        }
      }
    }

    /**
     * `estimateObjectSize`: tags the start object, follows the references
     * `edges` reports with the corrected callback, sums the sizes of the listed objects not reachable
     * from outside, cleans the heap and returns the sum cast to `jint`.
     */
    method EstimateObjectSize(start: ObjId, edges: seq<Edge>, objs: seq<ObjId>, sizeOf: ObjId -> nat) returns (r: int)
      requires Valid(Snapshot([]))
      modifies this
      ensures var hf := Followed(old(Snapshot([])), start, edges);
              r == ToJint(RetainedSum(hf, Found(hf, objs), sizeOf))
              && Snapshot(hf.tags) == Cleanup(hf, objs)
    {
      ghost var h0 := Snapshot([]);
      var p := NewTag(Tag(true, false, true));
      var tags := [p];
      slots := slots[start := p];
      ghost var h1 := Snapshot(tags);
      assert h1 == StartTagged(h0, start);
      tags := FollowReferences(edges, tags);
      var hf := Snapshot(tags);
      assert hf == Followed(h0, start, edges);
      var retainedSize := SumRetained(hf, Found(hf, objs), sizeOf);
      CleanHeapForSizes(objs, tags);
      r := ToJint(retainedSize);
    }
  }
}
