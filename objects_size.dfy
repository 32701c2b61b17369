/**
 * `objects_size`, the retained-size prototype that measures several roots at
 * once. Every tag holds, per tracked class id, a three-bit state (start
 * object, in the subtree, reachable from outside). `visitReference` spreads
 * the states from referrer to referee during `FollowReferences`;
 * `visitObject` then adds each object's size to `result[id]` for every id
 * whose state counts as retained, and deletes the tag.
 *
 * The jlong tag of an object is the address of its `Tag` record: the model
 * keeps the records in a store keyed by address, hands out fresh addresses
 * from `next`, and counts live records in `balance` (`tagBalance`).
 */
module ObjectsSize {
  import opened Jvmti

  const START_BIT: bv8 := 1
  const SUBTREE_BIT: bv8 := 2
  const OUTSIDE_BIT: bv8 := 4

  predicate IsStartObject(state: bv8) {
    state & START_BIT != 0
  }

  predicate IsInSubtree(state: bv8) {
    state & SUBTREE_BIT != 0
  }

  predicate IsReachableOutside(state: bv8) {
    state & OUTSIDE_BIT != 0
  }

  /** `create_state`: the three flags as given, no other bit set. */
  function CreateState(isStartObject: bool, isInSubtree: bool, isReachableOutside: bool): (r: bv8)
    ensures IsStartObject(r) == isStartObject && IsInSubtree(r) == isInSubtree
    ensures IsReachableOutside(r) == isReachableOutside
    ensures r < 8
  {
    (if isStartObject then START_BIT else 0)
    | (if isInSubtree then SUBTREE_BIT else 0)
    | (if isReachableOutside then OUTSIDE_BIT else 0)
  }

  /** A state is decided by its three flags. */
  lemma StateRoundTrip(state: bv8)
    requires state < 8
    ensures CreateState(IsStartObject(state), IsInSubtree(state), IsReachableOutside(state)) == state
  {
  }

  /** `isRetained`: the start object, or a subtree object not reachable from outside. */
  predicate IsRetained(state: bv8) {
    IsStartObject(state) || (IsInSubtree(state) && !IsReachableOutside(state))
  }

  /** `defaultState`: no flag set. */
  function DefaultState(): (r: bv8)
    ensures !IsStartObject(r) && !IsInSubtree(r) && !IsReachableOutside(r) && !IsRetained(r)
  {
    CreateState(false, false, false)
  }

  /**
   * `updateState`: the start flag is kept, "in the subtree" comes from
   * either state, and "reachable from outside" from the current state or a
   * reachable-outside referrer that is not itself a start object.
   */
  function UpdateState(currentState: bv8, referrerState: bv8): (r: bv8)
    ensures IsStartObject(r) == IsStartObject(currentState)
    ensures IsInSubtree(r) == (IsInSubtree(currentState) || IsInSubtree(referrerState))
    ensures IsReachableOutside(r) ==
              (IsReachableOutside(currentState) || (!IsStartObject(referrerState) && IsReachableOutside(referrerState)))
    ensures r < 8
  {
    CreateState(
      IsStartObject(currentState),
      IsInSubtree(currentState) || IsInSubtree(referrerState),
      IsReachableOutside(currentState) || (!IsStartObject(referrerState) && IsReachableOutside(referrerState)))
  }

  /** Updating twice from the same referrer changes nothing more. */
  lemma UpdateIdempotent(currentState: bv8, referrerState: bv8)
    ensures UpdateState(UpdateState(currentState, referrerState), referrerState) == UpdateState(currentState, referrerState)
  {
  }

  /** A state updated from itself keeps its flags. */
  lemma UpdateFromItself(state: bv8)
    requires state < 8
    ensures UpdateState(state, state) == state
  {
  }

  /** A start object stays retained whatever its referrers. */
  lemma StartStaysRetained(currentState: bv8, referrerState: bv8)
    requires IsStartObject(currentState)
    ensures IsStartObject(UpdateState(currentState, referrerState)) && IsRetained(UpdateState(currentState, referrerState))
  {
  }

  /** The state of a tracked object for its own class id: start and in the subtree, not reachable from outside. */
  function MarkStart(state: bv8): (r: bv8)
    ensures IsStartObject(r) && IsInSubtree(r) && !IsReachableOutside(r) && IsRetained(r)
    ensures r & 0xf8 == state & 0xf8
  {
    (state | 3) & !OUTSIDE_BIT
  }

  /** The state an id missing from the referrer gives the referee's entry. */
  const OUTSIDE_STATE: bv8 := CreateState(false, false, true)

  /**
   * The referee's states after a reference: ids the referrer lacks become
   * reachable from outside; every referrer id updates the referee's entry,
   * a missing entry starting with "reachable from outside" set when the
   * referee was already visited.
   */
  function Merge(referee: map<nat, bv8>, referrer: map<nat, bv8>, alreadyVisited: bool): map<nat, bv8> {
    Spread(Unshared(referee, referrer), referrer, alreadyVisited)
  }

  /** The first loop: the referee's ids the referrer lacks become reachable from outside. */
  function Unshared(referee: map<nat, bv8>, referrer: map<nat, bv8>): map<nat, bv8> {
    map id | id in referee :: if id in referrer then referee[id] else UpdateState(referee[id], OUTSIDE_STATE)
  }

  /** The second loop: every referrer id updates the referee's entry. */
  function Spread(states: map<nat, bv8>, referrer: map<nat, bv8>, alreadyVisited: bool): map<nat, bv8> {
    map id | id in states.Keys + referrer.Keys ::
      if id in referrer then
        UpdateState(if id in states then states[id] else CreateState(false, false, alreadyVisited), referrer[id])
      else states[id]
  }

  /** The merged states hold the ids of both tags. */
  lemma MergeKeys(referee: map<nat, bv8>, referrer: map<nat, bv8>, alreadyVisited: bool)
    ensures Merge(referee, referrer, alreadyVisited).Keys == referee.Keys + referrer.Keys
  {
  }

  /** Every id the referee has and the referrer lacks becomes reachable from outside, and nothing else changes. */
  lemma MergeMarksUnshared(referee: map<nat, bv8>, referrer: map<nat, bv8>, alreadyVisited: bool, id: nat)
    requires id in referee && id !in referrer
    ensures var s := Merge(referee, referrer, alreadyVisited)[id];
            IsReachableOutside(s) && IsStartObject(s) == IsStartObject(referee[id])
            && IsInSubtree(s) == IsInSubtree(referee[id])
  {
  }

  /**
   * Every id of the referrer spreads to the referee: the start flag stays
   * the referee's own, "in the subtree" comes from either, and "reachable
   * from outside" from the referee's entry (or, for a missing entry, from
   * the referee having been visited) or from a non-start outside referrer.
   */
  lemma MergeSpreadsReferrer(referee: map<nat, bv8>, referrer: map<nat, bv8>, alreadyVisited: bool, id: nat)
    requires id in referrer
    ensures var s := Merge(referee, referrer, alreadyVisited)[id];
            var r := referrer[id];
            (IsStartObject(s) <==> id in referee && IsStartObject(referee[id]))
            && (IsInSubtree(s) <==> (id in referee && IsInSubtree(referee[id])) || IsInSubtree(r))
            && (IsReachableOutside(s) <==>
                  (if id in referee then IsReachableOutside(referee[id]) else alreadyVisited)
                  || (!IsStartObject(r) && IsReachableOutside(r)))
  {
  }

  /** A tag record: the states by class id and the class id of a tracked class (-1 otherwise). */
  datatype TagRec = TagRec(states: map<nat, bv8>, classId: int)

  /** The tag slots, the records, the next fresh address and `tagBalance`. */
  datatype Heap = Heap(slots: map<ObjId, int>, store: map<int, TagRec>, next: int, balance: int)

  function TagOf(h: Heap, o: ObjId): int {
    if o in h.slots then h.slots[o] else 0
  }

  /** Every address in use is below `next`, and every tagged slot holds a record of the store. */
  predicate Valid(h: Heap) {
    0 < h.next
    && (forall p :: p in h.store ==> 0 < p < h.next)
    && (forall o :: o in h.slots && h.slots[o] != 0 ==> h.slots[o] in h.store)
    && (forall p :: p in h.store ==> h.store[p].classId >= -1)
  }

  /** The referee's record, created by `Tag::create` when it has none. */
  function EnsureTagged(h: Heap, o: ObjId): (r: (Heap, int))
    requires Valid(h)
    ensures Valid(r.0) && r.1 in r.0.store && TagOf(r.0, o) == r.1
    ensures TagOf(h, o) != 0 ==> r == (h, TagOf(h, o))
    ensures TagOf(h, o) == 0 ==> r.0.balance == h.balance + 1 && r.0.store[r.1] == TagRec(map[], -1)
    ensures forall p :: p in h.store ==> p in r.0.store && r.0.store[p] == h.store[p]
    ensures forall x :: x != o ==> TagOf(r.0, x) == TagOf(h, x)
  {
    if TagOf(h, o) != 0 then (h, TagOf(h, o))
    else
      (h.(slots := h.slots[o := h.next], store := h.store[h.next := TagRec(map[], -1)],
          next := h.next + 1, balance := h.balance + 1), h.next)
  }

  /** The record at `p` with the state of class id `classId` marked as a start object. */
  function MarkTracked(h: Heap, p: int, classId: nat): (r: Heap)
    requires p in h.store
  {
    var states := h.store[p].states;
    var current := if classId in states then states[classId] else 0;
    h.(store := h.store[p := h.store[p].(states := states[classId := MarkStart(current)])])
  }

  /**
   * `visitReference` for a reference `e` whose referee is an instance of
   * the class object `cls`. JVMTI reads the class's tag and whether the
   * referee was already visited (tagged with no states) before the
   * callback changes anything.
   */
  function ReferenceVisit(h: Heap, e: Edge, cls: ObjId): (r: (Heap, Visit))
    requires Valid(h)
  {
    var classTag := TagOf(h, cls);
    var alreadyVisited := TagOf(h, e.referee) != 0 && h.store[TagOf(h, e.referee)].states == map[];
    var (h1, p) := EnsureTagged(h, e.referee);
    var h2 := if classTag != 0 && h.store[classTag].classId != -1 then MarkTracked(h1, p, h.store[classTag].classId as nat) else h1;
    if e.referrer.None? then (h2, VisitObjects)
    else if TagOf(h2, e.referrer.value) == 0 then (h2, VisitAbort)
    else
      var rp := TagOf(h2, e.referrer.value);
      (h2.(store := h2.store[p := h2.store[p].(states := Merge(h2.store[p].states, h2.store[rp].states, alreadyVisited))]),
       VisitObjects)
  }

  /** Every callback keeps the heap valid and leaves the referee tagged. */
  lemma VisitReferenceKeepsValid(h: Heap, e: Edge, cls: ObjId)
    requires Valid(h)
    ensures Valid(ReferenceVisit(h, e, cls).0) && TagOf(ReferenceVisit(h, e, cls).0, e.referee) != 0
  {
  }

  /**
   * A reference from an untagged object aborts the traversal; a reference
   * of an untagged object to itself does not, because the referee is
   * tagged first and the two tag pointers are the same.
   */
  lemma UntaggedReferrerAborts(h: Heap, e: Edge, cls: ObjId)
    requires Valid(h)
    ensures ReferenceVisit(h, e, cls).1 == VisitAbort <==>
              e.referrer.Some? && TagOf(h, e.referrer.value) == 0 && e.referrer.value != e.referee
    ensures ReferenceVisit(h, e, cls).1 != VisitAbort ==> ReferenceVisit(h, e, cls).1 == VisitObjects
  {
  }

  /**
   * An instance of a tracked class ends the callback as a start object of
   * its class id, so it is always retained for that id.
   */
  lemma TrackedInstanceIsStart(h: Heap, e: Edge, cls: ObjId)
    requires Valid(h) && TagOf(h, cls) != 0 && h.store[TagOf(h, cls)].classId != -1
    ensures var r := ReferenceVisit(h, e, cls).0;
            var id := h.store[TagOf(h, cls)].classId;
            var states := r.store[TagOf(r, e.referee)].states;
            id in states && IsStartObject(states[id]) && IsInSubtree(states[id]) && IsRetained(states[id])
  {
    var id := h.store[TagOf(h, cls)].classId;
    var (h1, p) := EnsureTagged(h, e.referee);
    var h2 := MarkTracked(h1, p, id);
    if e.referrer.Some? && TagOf(h2, e.referrer.value) != 0 {
      var rr := h2.store[TagOf(h2, e.referrer.value)].states;
      var alreadyVisited := TagOf(h, e.referee) != 0 && h.store[TagOf(h, e.referee)].states == map[];
      if id in rr {
        MergeSpreadsReferrer(h2.store[p].states, rr, alreadyVisited, id);
      } else {
        MergeMarksUnshared(h2.store[p].states, rr, alreadyVisited, id);
      }
    }
  }

  /**
   * A reference from another, tagged object whose referee's class is not
   * tagged leaves the referee with the merge of the two tags' states.
   */
  lemma VisitReferenceMerges(h: Heap, e: Edge, cls: ObjId)
    requires Valid(h) && e.referrer.Some? && TagOf(h, e.referrer.value) != 0 && TagOf(h, cls) == 0
    ensures var r := ReferenceVisit(h, e, cls).0;
            var before := if TagOf(h, e.referee) != 0 then h.store[TagOf(h, e.referee)].states else map[];
            var alreadyVisited := TagOf(h, e.referee) != 0 && before == map[];
            e.referrer.value != e.referee ==>
              r.store[TagOf(r, e.referee)].states == Merge(before, h.store[TagOf(h, e.referrer.value)].states, alreadyVisited)
  {
  }

  /** The per-class sums after a visited object's size is added for each retained id. */
  function AddRetained(result: seq<int>, states: map<nat, bv8>, size: int): (r: seq<int>)
    ensures |r| == |result|
  {
    seq(|result|, i requires 0 <= i < |result| =>
      if i in states && IsRetained(states[i]) then result[i] + size else result[i])
  }

  /**
   * `markClass` as written: the class id arrives as a `uint8_t` and is
   * stored in the `int8_t` field `class_id`, so ids from 128 on wrap to
   * negative values and the id 255 becomes the "no class" value -1.
   */
  function Int8(classId: bv8): (r: int)
    ensures -128 <= r < 128
    ensures classId < 128 ==> r == classId as int
    ensures classId >= 128 ==> r == classId as int - 256
  {
    if classId < 128 then classId as int else classId as int - 256
  }

  /** The class with id 255 is stored as untracked; the one with id 128 as a negative index. */
  lemma MarkClassLosesHighIds()
    ensures Int8(255) == -1 && Int8(128) == -128
  {
  }

  /** The records of the agent, changed in place by its callbacks. */
  class ObjectsSizeAgent {
    var slots: map<ObjId, int>
    var store: map<int, TagRec>
    var next: int
    var balance: int

    function Snapshot(): Heap
      reads this
    {
      Heap(slots, store, next, balance)
    }

    /** `tagBalance = 0` on a heap without tags. */
    constructor()
      ensures Snapshot() == Heap(map[], map[], 1, 0) && Valid(Snapshot())
    {
      slots := map[];
      store := map[];
      next := 1;
      balance := 0;
    }

    /** `Tag::create`: a fresh record with no states and no class id. */
    method CreateTag() returns (p: int)
      modifies this
      ensures p == old(next) && next == old(next) + 1 && balance == old(balance) + 1
      ensures store == old(store)[p := TagRec(map[], -1)] && slots == old(slots)
    {
      p := next;
      store := store[p := TagRec(map[], -1)];
      next := next + 1;
      balance := balance + 1;
    }

    /**
     * `markClass` with the class id kept as the loader's index: the class
     * object gets a record if it has none, and the record the index.
     */
    method MarkClass(clazz: ObjId, index: nat)
      requires Valid(Snapshot())
      modifies this
      ensures Valid(Snapshot())
      ensures TagOf(Snapshot(), clazz) != 0 && store[TagOf(Snapshot(), clazz)].classId == index
      ensures old(TagOf(Snapshot(), clazz)) != 0 ==>
                slots == old(slots) && balance == old(balance)
                && store == old(store)[old(TagOf(Snapshot(), clazz)) := old(store[TagOf(Snapshot(), clazz)]).(classId := index)]
      ensures old(TagOf(Snapshot(), clazz)) == 0 ==>
                slots == old(slots)[clazz := old(next)] && balance == old(balance) + 1
                && store == old(store)[old(next) := TagRec(map[], index)]
    {
      var p := TagOf(Snapshot(), clazz);
      if p == 0 {
        p := CreateTag();
        slots := slots[clazz := p];
      }
      store := store[p := store[p].(classId := index)];
    }

    /** `visitReference` on the records in place. */
    method VisitReference(e: Edge, cls: ObjId) returns (v: Visit)
      requires Valid(Snapshot())
      modifies this
      ensures (Snapshot(), v) == ReferenceVisit(old(Snapshot()), e, cls)
    {
      var classTag := TagOf(Snapshot(), cls);
      var p := TagOf(Snapshot(), e.referee);
      var alreadyVisited := p != 0 && store[p].states == map[];
      if p == 0 {
        p := CreateTag();
        slots := slots[e.referee := p];
      }
      if classTag != 0 {
        var classId := store[classTag].classId;
        if classId != -1 {
          var states := store[p].states;
          var current := if classId in states then states[classId] else 0;
          store := store[p := store[p].(states := states[classId := MarkStart(current)])];
        }
      }
      v := VisitObjects;
      if e.referrer.Some? {
        var rp := TagOf(Snapshot(), e.referrer.value);
        if rp == 0 {
          v := VisitAbort;
          return;
        }
        var unshared := MarkUnshared(store[p].states, store[rp].states);
        var states := SpreadReferrer(unshared, store[rp].states, alreadyVisited);
        store := store[p := store[p].(states := states)];
      }
    }

    /**
     * `visitObject` on a tagged object: `size` is added to `result[id]`
     * for every retained id, then the record is deleted and the tag zeroed.
     * The write is unchecked, so every retained id must have a slot.
     */
    method VisitObject(o: ObjId, size: int, result: array<int>) returns (v: Visit)
      requires Valid(Snapshot()) && TagOf(Snapshot(), o) != 0
      requires forall id :: id in store[slots[o]].states && IsRetained(store[slots[o]].states[id]) ==> id < result.Length
      modifies this, result
      ensures v == IterationContinue
      ensures result[..] == AddRetained(old(result[..]), old(store[slots[o]].states), size)
      ensures slots == old(slots) - {o} && store == old(store) - {old(slots[o])}
      ensures balance == old(balance) - 1 && next == old(next)
    {
      var p := slots[o];
      AddSizes(result, store[p].states, size);
      store := store - {p};
      slots := slots - {o};
      balance := balance - 1;
      v := IterationContinue;
    }
  }

  /** `Unshared` with the ids of `pending` not yet visited by the first loop. */
  function UnsharedExcept(referee: map<nat, bv8>, referrer: map<nat, bv8>, pending: set<nat>): map<nat, bv8> {
    map id | id in referee :: if id in referrer || id in pending then referee[id] else UpdateState(referee[id], OUTSIDE_STATE)
  }

  lemma UnsharedVisit(referee: map<nat, bv8>, referrer: map<nat, bv8>, pending: set<nat>, id: nat)
    requires id in pending && id in referee
    ensures UnsharedExcept(referee, referrer, pending - {id}) ==
              var m := UnsharedExcept(referee, referrer, pending);
              if id in referrer then m else m[id := UpdateState(m[id], OUTSIDE_STATE)]
  {
  }

  /** The first loop of `visitReference`, over the referee's states. */
  method MarkUnshared(referee: map<nat, bv8>, referrer: map<nat, bv8>) returns (m: map<nat, bv8>)
    ensures m == Unshared(referee, referrer)
  {
    var ids := referee.Keys;
    m := referee;
    assert m == UnsharedExcept(referee, referrer, ids);
    while ids != {}
      invariant ids <= referee.Keys && m == UnsharedExcept(referee, referrer, ids)
      decreases |ids|
    {
      var id := Pick(ids);
      UnsharedVisit(referee, referrer, ids, id);
      if id !in referrer {
        m := m[id := UpdateState(m[id], OUTSIDE_STATE)];
      }
      ids := ids - {id};
    }
    assert UnsharedExcept(referee, referrer, {}) == Unshared(referee, referrer);
  }

  /** `Spread` with the ids of `pending` not yet visited by the second loop. */
  function SpreadExcept(states: map<nat, bv8>, referrer: map<nat, bv8>, alreadyVisited: bool, pending: set<nat>): map<nat, bv8> {
    map id | id in states.Keys + (referrer.Keys - pending) ::
      if id in referrer && id !in pending then
        UpdateState(if id in states then states[id] else CreateState(false, false, alreadyVisited), referrer[id])
      else states[id]
  }

  lemma SpreadVisit(states: map<nat, bv8>, referrer: map<nat, bv8>, alreadyVisited: bool, pending: set<nat>, id: nat)
    requires id in pending && id in referrer
    ensures SpreadExcept(states, referrer, alreadyVisited, pending - {id}) ==
              var m := SpreadExcept(states, referrer, alreadyVisited, pending);
              m[id := UpdateState(if id in m then m[id] else CreateState(false, false, alreadyVisited), referrer[id])]
  {
    var m := SpreadExcept(states, referrer, alreadyVisited, pending);
    assert (id in m) == (id in states) && (id in m ==> m[id] == states[id]);
  }

  /** Before the second loop nothing is spread; after it, everything. */
  lemma SpreadBounds(states: map<nat, bv8>, referrer: map<nat, bv8>, alreadyVisited: bool)
    ensures SpreadExcept(states, referrer, alreadyVisited, referrer.Keys) == states
    ensures SpreadExcept(states, referrer, alreadyVisited, {}) == Spread(states, referrer, alreadyVisited)
  {
    assert states.Keys + (referrer.Keys - referrer.Keys) == states.Keys;
    assert referrer.Keys - {} == referrer.Keys;
  }

  /** The second loop of `visitReference`, over the referrer's states. */
  method SpreadReferrer(states: map<nat, bv8>, referrer: map<nat, bv8>, alreadyVisited: bool) returns (m: map<nat, bv8>)
    ensures m == Spread(states, referrer, alreadyVisited)
  {
    var ids := referrer.Keys;
    m := states;
    SpreadBounds(states, referrer, alreadyVisited);
    while ids != {}
      invariant ids <= referrer.Keys && m == SpreadExcept(states, referrer, alreadyVisited, ids)
      decreases |ids|
    {
      var id := Pick(ids);
      SpreadVisit(states, referrer, alreadyVisited, ids, id);
      var current := if id in m then m[id] else CreateState(false, false, alreadyVisited);
      m := m[id := UpdateState(current, referrer[id])];
      ids := ids - {id};
    }
  }

  /** The loop of `visitObject`: `size` added to `result[id]` for every retained id. */
  method AddSizes(result: array<int>, states: map<nat, bv8>, size: int)
    requires forall id :: id in states && IsRetained(states[id]) ==> id < result.Length
    modifies result
    ensures result[..] == AddRetained(old(result[..]), states, size)
  {
    ghost var before := result[..];
    var ids := states.Keys;
    while ids != {}
      invariant ids <= states.Keys
      invariant forall i :: 0 <= i < result.Length ==>
                  result[i] == if i in states && i !in ids && IsRetained(states[i]) then before[i] + size else before[i]
      decreases |ids|
    {
      var id := Pick(ids);
      if IsRetained(states[id]) {
        result[id] := result[id] + size;
      }
      ids := ids - {id};
    }
  }

  /** The next entry of an `unordered_map` iteration: any id not visited yet. */
  method Pick(ids: set<nat>) returns (id: nat)
    requires ids != {}
    ensures id in ids
  {
    id :| id in ids;
  }
}
