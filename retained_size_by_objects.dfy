/**
 * `RetainedSizeByObjectsAction`: the retained size of every listed object.
 * Object `objects[i]` becomes the start object of query `i`; the tagging
 * phases spread the queries over the heap and a heap iteration totals the
 * retained sizes, one slot per listed object.
 */
module RetainedSizeByObjects {
  import opened Jvmti
  import opened SizesState
  import opened TagInfoArrays
  import opened SizesTags
  import opened SizesCallbacks
  import opened SizesPhases
  import RetainedSizeByClasses

  /** The position of the first `true` answer, `|bs|` when there is none. */
  function FirstTrue(bs: seq<bool>): (k: nat)
    ensures k <= |bs| && (k < |bs| ==> bs[k])
    ensures forall j :: 0 <= j < k ==> !bs[j]
  {
    if bs == [] then 0
    else if bs[0] then 0
    else 1 + FirstTrue(bs[1..])
  }

  /** The state `createTagForObject` gives a listed object: start and in the subtree, not yet visited. */
  const StartState: State := CreateState(true, true, false, false)

  /** A query: the object and the index of its result slot. */
  datatype Start = Start(obj: ObjId, index: QueryIndex)

  /** `createTagsForObjects` makes `objects[i]` the start object of query `i`. */
  function Enumerate(objects: seq<ObjId>): (r: seq<Start>)
    requires |objects| <= MAX_SIZE + 1
    ensures |r| == |objects| && forall i :: 0 <= i < |objects| ==> r[i] == Start(objects[i], i)
  {
    seq(|objects|, i requires 0 <= i < |objects| => Start(objects[i], i))
  }

  /** The entries an object's tag adds to the queries; an untagged or `TagWithNewInfo` slot adds none of its own. */
  function SlotEntries(h: Heap, o: ObjId): seq<TagInfo>
    requires o in h.slots
  {
    var t := h.slots[o];
    if t == NO_TAG || t == TAG_WITH_NEW_INFO || t !in h.engine.store.tags then [] else h.engine.store.tags[t].entries
  }

  /** An entry of index `i` may be added to object `o`: its tag holds only lower indices. */
  predicate Fits(h: Heap, o: ObjId, i: int)
    requires o in h.slots
  {
    forall e :: e in SlotEntries(h, o) ==> e.index < i
  }

  /**
   * `createTagForObject`: a new start tag of query `i`. An object that
   * already holds a real tag keeps it and the tag's array is extended by
   * the new entry, the new tag being deleted; otherwise the new tag is set.
   */
  function CreateTagForObject(h: Heap, o: ObjId, i: QueryIndex): (r: Heap)
    requires HeapValid(h) && o in h.slots && i < h.engine.store.queries && Fits(h, o, i)
    ensures HeapValid(r) && r.slots.Keys == h.slots.Keys && r.engine.newInfo == h.engine.newInfo
    ensures r.engine.store.queries == h.engine.store.queries && r.engine.store.next == h.engine.store.next + 1
    ensures SlotEntries(r, o) == SlotEntries(h, o) + [TagInfo(i, StartState)]
    ensures var t := h.slots[o];
            var s := h.engine.store;
            if t == NO_TAG || t == TAG_WITH_NEW_INFO then
              r.slots == h.slots[o := s.next] && r.engine.store.tags == s.tags[s.next := StartRec(i, StartState)]
            else
              r.slots == h.slots
              && r.engine.store.tags == s.tags[t := s.tags[t].(entries := s.tags[t].entries + [TagInfo(i, StartState)])]
  {
    var s := h.engine.store;
    var t := h.slots[o];
    var m := AfterCreate(s, i, StartState);
    CreateValid(s, i, StartState, 0);
    AddValid(s, StartRec(i, StartState));
    if t != NO_TAG && t != TAG_WITH_NEW_INFO then
      assert t in s.tags;
      ExtendedValid(h, m, o, i);
      Heap(h.engine.(store := AfterDelete(AfterExtend(m.store, t, m.tag), m.tag)), h.slots)
    else
      SetTagValid(h, m, o);
      Heap(h.engine.(store := m.store), h.slots[o := m.tag])
  }

  /** Extending a live tag by a fresh entry of a higher index and deleting the temporary tag keeps the store valid. */
  lemma ExtendedStore(s: Store, m: Made, t: int, i: QueryIndex)
    requires StoreValid(s) && t in s.tags && i < s.queries
    requires forall e :: e in s.tags[t].entries ==> e.index < i
    requires m == AfterCreate(s, i, StartState)
    ensures var s2 := AfterDelete(AfterExtend(m.store, t, m.tag), m.tag);
            StoreValid(s2) && s2.tags == s.tags[t := s.tags[t].(entries := s.tags[t].entries + [TagInfo(i, StartState)])]
  {
    CreateValid(s, i, StartState, 0);
    AddValid(s, StartRec(i, StartState));
    assert m.store.tags[t] == s.tags[t];
    ExtendValid(m.store, t, m.tag);
    var s1 := AfterExtend(m.store, t, m.tag);
    DeleteValid(s1, m.tag);
    assert m.tag !in s.tags;
    UpdateThenDrop(s.tags, m.tag, StartRec(i, StartState), t, s.tags[t].(entries := s.tags[t].entries + [TagInfo(i, StartState)]));
  }

  /** Adding a key, updating another one and dropping the added key again is the update alone. */
  lemma UpdateThenDrop<K, V>(m: map<K, V>, p: K, y: V, t: K, x: V)
    requires p !in m && t in m
    ensures m[p := y][t := x] - {p} == m[t := x]
  {
  }

  /** Extending an object's own tag by a fresh entry and deleting the temporary tag keeps the heap valid. */
  lemma ExtendedValid(h: Heap, m: Made, o: ObjId, i: QueryIndex)
    requires HeapValid(h) && o in h.slots && i < h.engine.store.queries && Fits(h, o, i)
    requires h.slots[o] != NO_TAG && h.slots[o] != TAG_WITH_NEW_INFO
    requires m == AfterCreate(h.engine.store, i, StartState)
    ensures var s2 := AfterDelete(AfterExtend(m.store, h.slots[o], m.tag), m.tag);
            HeapValid(Heap(h.engine.(store := s2), h.slots))
            && s2.tags == h.engine.store.tags[h.slots[o] := h.engine.store.tags[h.slots[o]].(
                 entries := h.engine.store.tags[h.slots[o]].entries + [TagInfo(i, StartState)])]
  {
    var s := h.engine.store;
    var t := h.slots[o];
    assert Live(s, t);
    assert SlotEntries(h, o) == s.tags[t].entries;
    ExtendedStore(s, m, t, i);
    var s2 := AfterDelete(AfterExtend(m.store, t, m.tag), m.tag);
    assert SameCounts(s, s2) by {
      forall a ensures RefCount(s2, a) == RefCount(s, a) {
      }
    }
    SlotsKept(s, s2, h.slots);
  }

  /** The objects the queries name. */
  function Objects(starts: seq<Start>): set<ObjId> {
    set k | 0 <= k < |starts| :: starts[k].obj
  }

  /** The start entries the queries give object `o`, in query order. */
  function StartsOf(starts: seq<Start>, o: ObjId): (r: seq<TagInfo>)
    ensures forall e :: e in r ==> e.state == StartState && exists k :: 0 <= k < |starts| && starts[k] == Start(o, e.index)
    decreases |starts|
  {
    if starts == [] then []
    else
      var n := |starts|;
      var rest := StartsOf(starts[..n - 1], o);
      assert forall k :: 0 <= k < n - 1 ==> starts[..n - 1][k] == starts[k];
      rest + if starts[n - 1].obj == o then [TagInfo(starts[n - 1].index, StartState)] else []
  }

  /** Query indices grow along the list. */
  predicate Increasing(starts: seq<Start>) {
    forall j, k :: 0 <= j < k < |starts| ==> starts[j].index < starts[k].index
  }

  /** The queries name objects of the heap with no entries of their own, in increasing index order, below the query count. */
  predicate StartsReady(h: Heap, starts: seq<Start>) {
    Increasing(starts)
    && forall k :: 0 <= k < |starts| ==>
         starts[k].obj in h.slots && (h.slots[starts[k].obj] == NO_TAG || h.slots[starts[k].obj] == TAG_WITH_NEW_INFO)
         && starts[k].index < h.engine.store.queries
  }

  /**
   * From heap `h0` to heap `h` the queries were tagged: every named
   * object holds a tag of its own, made after `h0`, whose entries are
   * exactly its start entries; every other slot and every older tag is as
   * it was.
   */
  ghost predicate StartsTagged(h0: Heap, h: Heap, starts: seq<Start>) {
    h.slots.Keys == h0.slots.Keys && h.engine.store.queries == h0.engine.store.queries
    && h.engine.newInfo == h0.engine.newInfo
    && (forall o :: o in h.slots && o !in Objects(starts) ==> h.slots[o] == h0.slots[o])
    && (forall o :: o in h.slots && o in Objects(starts) ==>
          h.slots[o] >= h0.engine.store.next && h.slots[o] in h.engine.store.tags
          && h.engine.store.tags[h.slots[o]].entries == StartsOf(starts, o))
    && (forall o1, o2 :: o1 in h.slots && o2 in h.slots && o1 in Objects(starts) && o2 in Objects(starts) && o1 != o2 ==>
          h.slots[o1] != h.slots[o2])
    && (forall a :: a in h0.engine.store.tags ==> a in h.engine.store.tags && h.engine.store.tags[a] == h0.engine.store.tags[a])
    && h.engine.store.next >= h0.engine.store.next
  }

  /** The queries in a prefix are ready as well. */
  lemma PrefixReady(h: Heap, starts: seq<Start>, n: nat)
    requires StartsReady(h, starts) && n <= |starts|
    ensures StartsReady(h, starts[..n])
  {
    assert forall k :: 0 <= k < n ==> starts[..n][k] == starts[k];
  }

  /** An object with start entries from earlier queries has only indices below the next query's. */
  lemma EarlierFits(starts: seq<Start>, o: ObjId)
    requires Increasing(starts) && starts != []
    ensures forall e :: e in StartsOf(starts[..|starts| - 1], o) ==> e.index < starts[|starts| - 1].index
  {
    var n := |starts|;
    forall e | e in StartsOf(starts[..n - 1], o) ensures e.index < starts[n - 1].index {
      var k :| 0 <= k < n - 1 && starts[..n - 1][k] == Start(o, e.index);
      assert starts[k] == Start(o, e.index);
    }
  }

  /** The objects of a list are those of its prefix and its last query's. */
  lemma ObjectsSnoc(starts: seq<Start>)
    requires starts != []
    ensures Objects(starts) == Objects(starts[..|starts| - 1]) + {starts[|starts| - 1].obj}
  {
    var n := |starts|;
    var pre := starts[..n - 1];
    assert forall k :: 0 <= k < n - 1 ==> pre[k] == starts[k];
    forall x | x in Objects(starts) ensures x in Objects(pre) + {starts[n - 1].obj} {
      var k :| 0 <= k < n && starts[k].obj == x;
      if k < n - 1 { assert pre[k].obj == x; }
    }
  }

  /** Before the next query, its object has only lower indices and a slot of its own or none. */
  lemma TagStepFits(h0: Heap, h1: Heap, starts: seq<Start>)
    requires HeapValid(h0) && StartsReady(h0, starts) && starts != []
    requires HeapValid(h1) && StartsTagged(h0, h1, starts[..|starts| - 1])
    ensures starts[|starts| - 1].obj in h1.slots && starts[|starts| - 1].index < h1.engine.store.queries
    ensures Fits(h1, starts[|starts| - 1].obj, starts[|starts| - 1].index)
    ensures var o := starts[|starts| - 1].obj;
            (o in Objects(starts[..|starts| - 1]) ==> h1.slots[o] != NO_TAG && h1.slots[o] != TAG_WITH_NEW_INFO)
            && (o !in Objects(starts[..|starts| - 1]) ==> h1.slots[o] == NO_TAG || h1.slots[o] == TAG_WITH_NEW_INFO)
  {
    var n := |starts|;
    var o := starts[n - 1].obj;
    if o in Objects(starts[..n - 1]) {
      assert h1.slots[o] >= h0.engine.store.next >= FIRST_HEAP_TAG;
      assert SlotEntries(h1, o) == StartsOf(starts[..n - 1], o);
    } else {
      assert h1.slots[o] == h0.slots[o];
    }
    EarlierFits(starts, o);
  }

  /** What `createTagForObject` did for the last query, read off its contract. */
  ghost predicate StepFacts(h1: Heap, r: Heap, starts: seq<Start>)
    requires starts != []
  {
    var o := starts[|starts| - 1].obj;
    var pre := starts[..|starts| - 1];
    o in h1.slots
    && (forall x :: x in h1.slots ==> h1.slots[x] < h1.engine.store.next)
    && (forall a :: a in h1.engine.store.tags ==> a < h1.engine.store.next)
    && r.slots.Keys == h1.slots.Keys && r.engine.store.queries == h1.engine.store.queries
    && r.engine.newInfo == h1.engine.newInfo && r.engine.store.next == h1.engine.store.next + 1
    && (o in Objects(pre) ==> r.slots == h1.slots && h1.slots[o] != NO_TAG && h1.slots[o] != TAG_WITH_NEW_INFO)
    && (o !in Objects(pre) ==> r.slots == h1.slots[o := h1.engine.store.next])
    && r.slots[o] in r.engine.store.tags
    && r.engine.store.tags[r.slots[o]].entries == StartsOf(pre, o) + [TagInfo(starts[|starts| - 1].index, StartState)]
    && (forall a :: a in h1.engine.store.tags && (a != h1.slots[o] || o !in Objects(pre)) ==>
          a in r.engine.store.tags && r.engine.store.tags[a] == h1.engine.store.tags[a])
  }

  /** After one more query, the objects it does not name keep their slots. */
  lemma StepKeepsOthers(h0: Heap, h1: Heap, r: Heap, starts: seq<Start>)
    requires StartsReady(h0, starts) && starts != [] && StartsTagged(h0, h1, starts[..|starts| - 1])
    requires StepFacts(h1, r, starts)
    ensures forall x :: x in r.slots && x !in Objects(starts) ==> r.slots[x] == h0.slots[x]
  {
    ObjectsSnoc(starts);
  }

  /** After one more query, its object holds a fresh tag apart from the other named objects'. */
  lemma StepSlots(h0: Heap, h1: Heap, r: Heap, starts: seq<Start>)
    requires StartsReady(h0, starts) && starts != [] && StartsTagged(h0, h1, starts[..|starts| - 1])
    requires StepFacts(h1, r, starts)
    ensures var o := starts[|starts| - 1].obj;
            r.slots[o] >= h0.engine.store.next
            && forall x :: x in r.slots && x in Objects(starts) && x != o ==> r.slots[x] == h1.slots[x] && r.slots[x] != r.slots[o]
  {
    var n := |starts|;
    var pre := starts[..n - 1];
    var o := starts[n - 1].obj;
    ObjectsSnoc(starts);
    if o !in Objects(pre) {
      assert h1.slots[o] == h0.slots[o];
    }
  }

  /** After one more query, every named object's tag holds exactly its start entries. */
  lemma StepEntries(h0: Heap, h1: Heap, r: Heap, starts: seq<Start>)
    requires StartsReady(h0, starts) && starts != [] && StartsTagged(h0, h1, starts[..|starts| - 1])
    requires StepFacts(h1, r, starts)
    ensures forall x :: x in r.slots && x in Objects(starts) ==>
              r.slots[x] >= h0.engine.store.next && r.slots[x] in r.engine.store.tags
              && r.engine.store.tags[r.slots[x]].entries == StartsOf(starts, x)
  {
    var n := |starts|;
    var pre := starts[..n - 1];
    var o := starts[n - 1].obj;
    ObjectsSnoc(starts);
    StepSlots(h0, h1, r, starts);
    forall x | x in r.slots && x in Objects(starts)
      ensures r.slots[x] >= h0.engine.store.next && r.slots[x] in r.engine.store.tags
              && r.engine.store.tags[r.slots[x]].entries == StartsOf(starts, x)
    {
      if x != o {
        assert x in Objects(pre);
        assert StartsOf(starts, x) == StartsOf(pre, x);
        var a := h1.slots[x];
        assert a == r.slots[x];
        if o in Objects(pre) {
          assert h1.slots[o] == r.slots[o];
        }
        assert a in h1.engine.store.tags && (a != h1.slots[o] || o !in Objects(pre));
      }
    }
  }

  /** After one more query, the tags that existed before all queries are untouched. */
  lemma StepOldTags(h0: Heap, h1: Heap, r: Heap, starts: seq<Start>)
    requires forall a :: a in h0.engine.store.tags ==> a < h0.engine.store.next
    requires StartsReady(h0, starts) && starts != [] && StartsTagged(h0, h1, starts[..|starts| - 1])
    requires StepFacts(h1, r, starts)
    ensures forall a :: a in h0.engine.store.tags ==> a in r.engine.store.tags && r.engine.store.tags[a] == h0.engine.store.tags[a]
  {
    var n := |starts|;
    var o := starts[n - 1].obj;
    forall a | a in h0.engine.store.tags
      ensures a in r.engine.store.tags && r.engine.store.tags[a] == h0.engine.store.tags[a]
    {
      if o in Objects(starts[..n - 1]) {
        assert a < h0.engine.store.next <= h1.slots[o];
      }
    }
  }

  /** After one more query, the named objects still hold pairwise different tags. */
  lemma StepDistinct(h0: Heap, h1: Heap, r: Heap, starts: seq<Start>)
    requires StartsReady(h0, starts) && starts != [] && StartsTagged(h0, h1, starts[..|starts| - 1])
    requires StepFacts(h1, r, starts)
    ensures forall o1, o2 :: o1 in r.slots && o2 in r.slots && o1 in Objects(starts) && o2 in Objects(starts) && o1 != o2 ==>
              r.slots[o1] != r.slots[o2]
  {
    var n := |starts|;
    var o := starts[n - 1].obj;
    ObjectsSnoc(starts);
    StepSlots(h0, h1, r, starts);
    forall o1, o2 | o1 in r.slots && o2 in r.slots && o1 in Objects(starts) && o2 in Objects(starts) && o1 != o2
      ensures r.slots[o1] != r.slots[o2]
    {
      if o1 != o && o2 != o {
        assert o1 in Objects(starts[..n - 1]) && o2 in Objects(starts[..n - 1]);
        assert r.slots[o1] == h1.slots[o1] && r.slots[o2] == h1.slots[o2];
      }
    }
  }

  /** The bookkeeping of one more query: the queries including it are tagged. */
  lemma TaggedAfter(h0: Heap, h1: Heap, r: Heap, starts: seq<Start>)
    requires forall a :: a in h0.engine.store.tags ==> a < h0.engine.store.next
    requires StartsReady(h0, starts) && starts != [] && StartsTagged(h0, h1, starts[..|starts| - 1])
    requires StepFacts(h1, r, starts)
    ensures StartsTagged(h0, r, starts)
  {
    StepKeepsOthers(h0, h1, r, starts);
    StepSlots(h0, h1, r, starts);
    StepEntries(h0, h1, r, starts);
    StepDistinct(h0, h1, r, starts);
    StepOldTags(h0, h1, r, starts);
  }

  /** What the contract of `createTagForObject` says about the step for the last query. */
  ghost predicate StepInputs(h1: Heap, r: Heap, starts: seq<Start>)
    requires starts != []
  {
    var o := starts[|starts| - 1].obj;
    var i := starts[|starts| - 1].index;
    (forall x :: x in h1.slots ==> h1.slots[x] < h1.engine.store.next)
    && (forall a :: a in h1.engine.store.tags ==> a < h1.engine.store.next)
    && r.slots.Keys == h1.slots.Keys && r.engine.store.queries == h1.engine.store.queries
    && r.engine.newInfo == h1.engine.newInfo && r.engine.store.next == h1.engine.store.next + 1
    && o in h1.slots
    && var t := h1.slots[o];
       var s := h1.engine.store;
       (t == NO_TAG || t == TAG_WITH_NEW_INFO ==>
          r.slots == h1.slots[o := s.next] && r.engine.store.tags == s.tags[s.next := StartRec(i, StartState)])
       && (t != NO_TAG && t != TAG_WITH_NEW_INFO ==>
          t in s.tags && r.slots == h1.slots
          && r.engine.store.tags == s.tags[t := s.tags[t].(entries := s.tags[t].entries + [TagInfo(i, StartState)])])
  }

  /** The step facts for an object the earlier queries do not name: it gets a fresh tag. */
  lemma StepFactsNew(h1: Heap, r: Heap, starts: seq<Start>)
    requires starts != [] && StepInputs(h1, r, starts)
    requires var o := starts[|starts| - 1].obj;
             o !in Objects(starts[..|starts| - 1])
             && (h1.slots[o] == NO_TAG || h1.slots[o] == TAG_WITH_NEW_INFO)
    ensures StepFacts(h1, r, starts)
  {
    var n := |starts|;
    var o := starts[n - 1].obj;
    var i := starts[n - 1].index;
    var pre := starts[..n - 1];
    var s := h1.engine.store;
    StartsOfOutside(pre, o);
    assert r.slots[o] == s.next && r.engine.store.tags[s.next].entries == StartsOf(pre, o) + [TagInfo(i, StartState)];
    assert forall a :: a in s.tags ==> a in r.engine.store.tags && r.engine.store.tags[a] == s.tags[a];
  }

  /** The step facts for an object an earlier query named: its tag gets one more entry. */
  lemma StepFactsExisting(h1: Heap, r: Heap, starts: seq<Start>)
    requires starts != [] && StepInputs(h1, r, starts)
    requires var o := starts[|starts| - 1].obj;
             var t := h1.slots[o];
             o in Objects(starts[..|starts| - 1]) && t != NO_TAG && t != TAG_WITH_NEW_INFO
             && t in h1.engine.store.tags && h1.engine.store.tags[t].entries == StartsOf(starts[..|starts| - 1], o)
    ensures StepFacts(h1, r, starts)
  {
    var n := |starts|;
    var o := starts[n - 1].obj;
    var i := starts[n - 1].index;
    var pre := starts[..n - 1];
    var s := h1.engine.store;
    var t := h1.slots[o];
    assert r.slots[o] == t && r.engine.store.tags[t].entries == StartsOf(pre, o) + [TagInfo(i, StartState)];
    assert forall a :: a in s.tags && a != t ==> a in r.engine.store.tags && r.engine.store.tags[a] == s.tags[a];
  }

  /** One more query keeps the queries tagged. */
  lemma TagStep(h0: Heap, h1: Heap, starts: seq<Start>)
    requires HeapValid(h0) && StartsReady(h0, starts) && starts != []
    requires HeapValid(h1) && StartsTagged(h0, h1, starts[..|starts| - 1])
    ensures starts[|starts| - 1].obj in h1.slots && starts[|starts| - 1].index < h1.engine.store.queries
    ensures Fits(h1, starts[|starts| - 1].obj, starts[|starts| - 1].index)
    ensures StartsTagged(h0, CreateTagForObject(h1, starts[|starts| - 1].obj, starts[|starts| - 1].index), starts)
  {
    var n := |starts|;
    var o := starts[n - 1].obj;
    TagStepFits(h0, h1, starts);
    var r := CreateTagForObject(h1, o, starts[n - 1].index);
    assert forall x :: x in h1.slots ==> h1.slots[x] < h1.engine.store.next by {
      forall x | x in h1.slots ensures h1.slots[x] < h1.engine.store.next {
        assert Live(h1.engine.store, h1.slots[x]);
      }
    }
    assert StepInputs(h1, r, starts);
    if o in Objects(starts[..n - 1]) {
      assert h1.slots[o] in h1.engine.store.tags && h1.engine.store.tags[h1.slots[o]].entries == StartsOf(starts[..n - 1], o);
      StepFactsExisting(h1, r, starts);
    } else {
      StepFactsNew(h1, r, starts);
    }
    TaggedAfter(h0, h1, r, starts);
  }

  /** An object no query names gets no start entries. */
  lemma StartsOfOutside(starts: seq<Start>, o: ObjId)
    requires o !in Objects(starts)
    ensures StartsOf(starts, o) == []
  {
  }


  /** The queries in order, each through `createTagForObject`. */
  function CreateTags(h: Heap, starts: seq<Start>): (r: Heap)
    requires HeapValid(h) && StartsReady(h, starts)
    ensures HeapValid(r) && r.slots.Keys == h.slots.Keys && r.engine.store.queries == h.engine.store.queries
    decreases |starts|, 1
  {
    if starts == [] then h
    else
      var n := |starts|;
      PrefixReady(h, starts, n - 1);
      var h1 := CreateTags(h, starts[..n - 1]);
      CreateTagsTagged(h, starts[..n - 1]);
      TagStep(h, h1, starts);
      CreateTagForObject(h1, starts[n - 1].obj, starts[n - 1].index)
  }

  /**
   * After the queries every named object holds a tag of its own with
   * exactly its start entries, and nothing else changed.
   */
  lemma CreateTagsTagged(h: Heap, starts: seq<Start>)
    requires HeapValid(h) && StartsReady(h, starts)
    ensures StartsTagged(h, CreateTags(h, starts), starts)
    decreases |starts|, 2
  {
    if starts == [] {
      assert Objects(starts) == {};
    } else {
      var n := |starts|;
      PrefixReady(h, starts, n - 1);
      CreateTagsTagged(h, starts[..n - 1]);
      TagStep(h, CreateTags(h, starts[..n - 1]), starts);
    }
  }

  /** A query that appears in the list gives its object its start entry. */
  lemma {:induction false} StartsOfComplete(starts: seq<Start>, k: nat)
    requires k < |starts|
    ensures TagInfo(starts[k].index, StartState) in StartsOf(starts, starts[k].obj)
    decreases |starts|
  {
    var n := |starts|;
    if k < n - 1 {
      StartsOfComplete(starts[..n - 1], k);
      assert starts[..n - 1][k] == starts[k];
    }
  }

  /**
   * With the listed objects enumerated, an object's start entries are
   * exactly the positions it is listed at: `objects[i]` receives index `i`,
   * and a duplicate receives every one of its positions.
   */
  lemma EnumeratedStarts(objects: seq<ObjId>, o: ObjId, e: TagInfo)
    requires |objects| <= MAX_SIZE + 1
    ensures e in StartsOf(Enumerate(objects), o) <==>
              e.state == StartState && e.index < |objects| && objects[e.index] == o
  {
    var es := Enumerate(objects);
    if e.state == StartState && e.index < |objects| && objects[e.index] == o {
      StartsOfComplete(es, e.index);
    }
  }

  /** The start objects of the enumerated list are the listed objects. */
  lemma EnumeratedObjects(objects: seq<ObjId>)
    requires |objects| <= MAX_SIZE + 1
    ensures forall o :: o in Objects(Enumerate(objects)) <==> o in objects
  {
    var es := Enumerate(objects);
    forall o | o in objects ensures o in Objects(es) {
      var i :| 0 <= i < |objects| && objects[i] == o;
      assert es[i].obj == o;
    }
  }

  /** The queries of the first `n` listed objects. */
  lemma EnumeratePrefix(objects: seq<ObjId>, n: nat)
    requires n <= |objects| <= MAX_SIZE + 1
    ensures Enumerate(objects)[..n] == Enumerate(objects[..n])
  {
  }

  /** Freshly listed objects, all untagged, are ready to be made start objects. */
  lemma EnumerateReady(h: Heap, objects: seq<ObjId>, n: nat)
    requires n <= |objects| <= h.engine.store.queries && h.engine.store.queries <= MAX_SIZE
    requires forall i :: 0 <= i < |objects| ==> objects[i] in h.slots && h.slots[objects[i]] == NO_TAG
    ensures StartsReady(h, Enumerate(objects)[..n])
  {
  }

  /**
   * `createTagsForObjects`: `createTagForObject(objects[i], i)` in input
   * order, with `stops[i]` the `shouldStopExecution` answer after object
   * `i`; a stop ends the loop with the timeout error.
   */
  function CreateTagsForObjects(h: Heap, objects: seq<ObjId>, stops: seq<bool>): (res: (Heap, AgentError))
    requires HeapValid(h) && |objects| <= h.engine.store.queries && |stops| == |objects|
    requires forall i :: 0 <= i < |objects| ==> objects[i] in h.slots && h.slots[objects[i]] == NO_TAG
    ensures HeapValid(res.0) && res.0.slots.Keys == h.slots.Keys && res.0.engine.store.queries == h.engine.store.queries
    ensures res.1 == NoError || res.1 == Timeout
    ensures res.1 == Timeout <==> true in stops
  {
    var k := FirstTrue(stops);
    var n := if k < |stops| then k + 1 else |objects|;
    EnumerateReady(h, objects, n);
    var h2 := CreateTags(h, Enumerate(objects)[..n]);
    if k < |stops| then (h2, Timeout) else (h2, NoError)
  }

  /**
   * When no stop is requested every listed object holds a tag of its own
   * whose entries are the start entries of exactly the positions it is
   * listed at, and every other object keeps its slot.
   */
  lemma CreateTagsForObjectsTags(h: Heap, objects: seq<ObjId>, stops: seq<bool>)
    requires HeapValid(h) && |objects| <= h.engine.store.queries && |stops| == |objects|
    requires forall i :: 0 <= i < |objects| ==> objects[i] in h.slots && h.slots[objects[i]] == NO_TAG
    requires true !in stops
    ensures var r := CreateTagsForObjects(h, objects, stops).0;
            (forall i :: 0 <= i < |objects| ==>
               r.slots[objects[i]] in r.engine.store.tags && r.slots[objects[i]] != NO_TAG
               && forall e :: e in r.engine.store.tags[r.slots[objects[i]]].entries <==>
                    e.state == StartState && e.index < |objects| && objects[e.index] == objects[i])
            && forall o :: o in h.slots && o !in objects ==> r.slots[o] == h.slots[o]
  {
    var es := Enumerate(objects);
    assert es[..|objects|] == es;
    EnumerateReady(h, objects, |objects|);
    assert CreateTagsForObjects(h, objects, stops).0 == CreateTags(h, es);
    CreateTagsTagged(h, es);
    EnumeratedTagged(h, CreateTags(h, es), objects);
  }

  /** What `StartsTagged` says about the enumerated list, in terms of the listed objects. */
  lemma EnumeratedTagged(h: Heap, r: Heap, objects: seq<ObjId>)
    requires |objects| <= MAX_SIZE + 1 && forall i :: 0 <= i < |objects| ==> objects[i] in h.slots
    requires forall i :: 0 <= i < |objects| ==> h.slots[objects[i]] == NO_TAG
    requires StartsTagged(h, r, Enumerate(objects)) && h.engine.store.next >= FIRST_HEAP_TAG
    ensures forall i :: 0 <= i < |objects| ==>
              r.slots[objects[i]] in r.engine.store.tags && r.slots[objects[i]] != NO_TAG
              && forall e :: e in r.engine.store.tags[r.slots[objects[i]]].entries <==>
                   e.state == StartState && e.index < |objects| && objects[e.index] == objects[i]
    ensures forall o :: o in h.slots && o !in objects ==> r.slots[o] == h.slots[o]
  {
    EnumeratedObjects(objects);
    forall i, e | 0 <= i < |objects|
      ensures e in r.engine.store.tags[r.slots[objects[i]]].entries <==>
                e.state == StartState && e.index < |objects| && objects[e.index] == objects[i]
    {
      EnumeratedStarts(objects, objects[i], e);
    }
  }

  /** The listed objects among the first `n` that hold `TagWithNewInfo`, with their positions. */
  function NewInfoStarts(slots: map<ObjId, int>, objects: seq<ObjId>, n: nat): (r: seq<Start>)
    requires n <= |objects| <= MAX_SIZE + 1 && forall i :: 0 <= i < |objects| ==> objects[i] in slots
    ensures Increasing(r) && |r| <= n
    ensures forall k :: 0 <= k < |r| ==>
              r[k].index < n && objects[r[k].index] == r[k].obj && slots[r[k].obj] == TAG_WITH_NEW_INFO
    ensures forall i :: 0 <= i < n && slots[objects[i]] == TAG_WITH_NEW_INFO ==> Start(objects[i], i) in r
  {
    if n == 0 then []
    else
      var rest := NewInfoStarts(slots, objects, n - 1);
      if slots[objects[n - 1]] == TAG_WITH_NEW_INFO then rest + [Start(objects[n - 1], n - 1)] else rest
  }

  /**
   * `retagStartObjects`: the listed objects holding `TagWithNewInfo` are
   * collected with their positions, then each gets `createTagForObject`
   * again. `collect[i]` and `retag[j]` are the `shouldStopExecution`
   * answers after object `i` in the first loop and after the `j`-th
   * collected object in the second one.
   */
  function RetagStartObjects(h: Heap, objects: seq<ObjId>, collect: seq<bool>, retag: seq<bool>)
    : (res: (Heap, AgentError))
    requires HeapValid(h) && |objects| <= h.engine.store.queries
    requires forall i :: 0 <= i < |objects| ==> objects[i] in h.slots
    requires |collect| == |objects| && |retag| == |objects|
    ensures HeapValid(res.0) && res.0.slots.Keys == h.slots.Keys && res.0.engine.store.queries == h.engine.store.queries
    ensures res.1 == NoError || res.1 == Timeout
    ensures true in collect ==> res == (h, Timeout)
    ensures res.1 == Timeout ==> true in collect || true in retag
    ensures forall o :: o in h.slots && h.slots[o] != TAG_WITH_NEW_INFO ==> res.0.slots[o] == h.slots[o]
  {
    if FirstTrue(collect) < |collect| then (h, Timeout)
    else
      var ps := NewInfoStarts(h.slots, objects, |objects|);
      var j := FirstTrue(retag[..|ps|]);
      var n := if j < |ps| then j + 1 else |ps|;
      PrefixReady(h, ps, n);
      PrefixKeeps(h, ps, n);
      var h2 := CreateTags(h, ps[..n]);
      if j < |ps| then
        assert retag[j] == retag[..|ps|][j];
        (h2, Timeout)
      else (h2, NoError)
  }

  /** Without a stop request, `retagStartObjects` is `createTagForObject` on every collected object. */
  lemma RetagIsCreateTags(h: Heap, objects: seq<ObjId>, collect: seq<bool>, retag: seq<bool>)
    requires HeapValid(h) && |objects| <= h.engine.store.queries
    requires forall i :: 0 <= i < |objects| ==> objects[i] in h.slots
    requires |collect| == |objects| && |retag| == |objects|
    requires true !in collect && true !in retag
    ensures StartsReady(h, NewInfoStarts(h.slots, objects, |objects|))
    ensures RetagStartObjects(h, objects, collect, retag) == (CreateTags(h, NewInfoStarts(h.slots, objects, |objects|)), NoError)
  {
    var ps := NewInfoStarts(h.slots, objects, |objects|);
    assert FirstTrue(collect) == |collect|;
    assert true !in retag[..|ps|] by {
      assert forall x :: x in retag[..|ps|] ==> x in retag;
    }
    assert ps[..|ps|] == ps;
    PrefixReady(h, ps, |ps|);
  }

  /**
   * When no stop is requested, the listed objects that held
   * `TagWithNewInfo` are re-tagged: each holds a tag of its own with the
   * start entries of exactly its positions.
   */
  lemma RetagStartObjectsTags(h: Heap, objects: seq<ObjId>, collect: seq<bool>, retag: seq<bool>)
    requires HeapValid(h) && |objects| <= h.engine.store.queries
    requires forall i :: 0 <= i < |objects| ==> objects[i] in h.slots
    requires |collect| == |objects| && |retag| == |objects|
    requires true !in collect && true !in retag
    ensures var r := RetagStartObjects(h, objects, collect, retag).0;
            forall i :: 0 <= i < |objects| && h.slots[objects[i]] == TAG_WITH_NEW_INFO ==>
              r.slots[objects[i]] in r.engine.store.tags && r.slots[objects[i]] != NO_TAG
              && forall e :: e in r.engine.store.tags[r.slots[objects[i]]].entries <==>
                   e.state == StartState && e.index < |objects| && objects[e.index] == objects[i]
  {
    var ps := NewInfoStarts(h.slots, objects, |objects|);
    RetagIsCreateTags(h, objects, collect, retag);
    CreateTagsTagged(h, ps);
    CollectedTagged(h, CreateTags(h, ps), objects);
  }

  /** Once the collected objects are tagged, each holds the start entries of exactly its positions. */
  lemma CollectedTagged(h: Heap, r: Heap, objects: seq<ObjId>)
    requires |objects| <= MAX_SIZE + 1 && forall i :: 0 <= i < |objects| ==> objects[i] in h.slots
    requires StartsTagged(h, r, NewInfoStarts(h.slots, objects, |objects|)) && h.engine.store.next >= FIRST_HEAP_TAG
    ensures forall i :: 0 <= i < |objects| && h.slots[objects[i]] == TAG_WITH_NEW_INFO ==>
              r.slots[objects[i]] in r.engine.store.tags && r.slots[objects[i]] != NO_TAG
              && forall e :: e in r.engine.store.tags[r.slots[objects[i]]].entries <==>
                   e.state == StartState && e.index < |objects| && objects[e.index] == objects[i]
  {
    forall i | 0 <= i < |objects| && h.slots[objects[i]] == TAG_WITH_NEW_INFO
      ensures r.slots[objects[i]] in r.engine.store.tags && r.slots[objects[i]] != NO_TAG
              && forall e :: e in r.engine.store.tags[r.slots[objects[i]]].entries <==>
                   e.state == StartState && e.index < |objects| && objects[e.index] == objects[i]
    {
      CollectedOne(h, r, objects, i);
    }
  }

  /** One collected object holds the start entries of exactly its positions. */
  lemma CollectedOne(h: Heap, r: Heap, objects: seq<ObjId>, i: nat)
    requires |objects| <= MAX_SIZE + 1 && forall j :: 0 <= j < |objects| ==> objects[j] in h.slots
    requires StartsTagged(h, r, NewInfoStarts(h.slots, objects, |objects|)) && h.engine.store.next >= FIRST_HEAP_TAG
    requires i < |objects| && h.slots[objects[i]] == TAG_WITH_NEW_INFO
    ensures r.slots[objects[i]] in r.engine.store.tags && r.slots[objects[i]] != NO_TAG
    ensures forall e :: e in r.engine.store.tags[r.slots[objects[i]]].entries <==>
              e.state == StartState && e.index < |objects| && objects[e.index] == objects[i]
  {
    var ps := NewInfoStarts(h.slots, objects, |objects|);
    var o := objects[i];
    var k :| 0 <= k < |ps| && ps[k] == Start(o, i);
    assert o in Objects(ps);
    assert o in r.slots;
    assert r.slots[o] >= h.engine.store.next && r.slots[o] in r.engine.store.tags;
    assert r.engine.store.tags[r.slots[o]].entries == StartsOf(ps, o);
    forall e ensures e in StartsOf(ps, o) <==> e.state == StartState && e.index < |objects| && objects[e.index] == o {
      NewInfoStartsOf(h.slots, objects, i, e);
    }
  }

  /** Tagging a prefix of the collected objects leaves every object that did not hold `TagWithNewInfo` as it was. */
  lemma PrefixKeeps(h: Heap, ps: seq<Start>, n: nat)
    requires HeapValid(h) && StartsReady(h, ps) && n <= |ps|
    requires forall k :: 0 <= k < |ps| ==> ps[k].obj in h.slots && h.slots[ps[k].obj] == TAG_WITH_NEW_INFO
    ensures forall o :: o in h.slots && h.slots[o] != TAG_WITH_NEW_INFO ==> CreateTags(h, ps[..n]).slots[o] == h.slots[o]
  {
    assert forall o :: o in Objects(ps[..n]) ==> h.slots[o] == TAG_WITH_NEW_INFO by {
      assert forall k :: 0 <= k < n ==> ps[..n][k] == ps[k];
    }
    PrefixReady(h, ps, n);
    CreateTagsTagged(h, ps[..n]);
  }

  /** The start entries the collected objects get are those of every position they are listed at. */
  lemma NewInfoStartsOf(slots: map<ObjId, int>, objects: seq<ObjId>, i: nat, e: TagInfo)
    requires |objects| <= MAX_SIZE + 1 && forall j :: 0 <= j < |objects| ==> objects[j] in slots
    requires i < |objects| && slots[objects[i]] == TAG_WITH_NEW_INFO
    ensures e in StartsOf(NewInfoStarts(slots, objects, |objects|), objects[i]) <==>
              e.state == StartState && e.index < |objects| && objects[e.index] == objects[i]
  {
    var ps := NewInfoStarts(slots, objects, |objects|);
    if e.state == StartState && e.index < |objects| && objects[e.index] == objects[i] {
      assert Start(objects[e.index], e.index) in ps;
      var k :| 0 <= k < |ps| && ps[k] == Start(objects[i], e.index);
      StartsOfComplete(ps, k);
    }
  }

  /**
   * The `shouldStopExecution` answers of one call: after each listed object
   * in `createTagsForObjects`, in the two loops of `retagStartObjects`, and
   * after the four phases of `tagHeap` that check.
   */
  datatype Answers = Answers(create: seq<bool>, collect: seq<bool>, retag: seq<bool>, checks: seq<bool>)

  /** One answer per listed object in each loop, and one per checked phase. */
  predicate AnswersFit(a: Answers, n: nat) {
    |a.create| == n && |a.collect| == n && |a.retag| == n && |a.checks| == 4
  }

  /**
   * `tagHeap` of the by-objects action: the new-information pass, the
   * collection of the `TagWithNewInfo` objects, `retagStartObjects`, the
   * visiting pass and the walks from the collected objects, each phase
   * followed by a stop check.
   */
  function TagHeapForObjects(h: Heap, objects: seq<ObjId>, r: Reports, c: Clock, a: Answers): (res: (Heap, AgentError))
    requires HeapValid(h) && ReportsIn(h.slots, r, c) && |objects| <= h.engine.store.queries
    requires forall i :: 0 <= i < |objects| ==> objects[i] in h.slots
    requires AnswersFit(a, |objects|)
    ensures HeapValid(res.0) && res.0.slots.Keys == h.slots.Keys && res.0.engine.store.queries == h.engine.store.queries
    ensures res.1 == NoError || res.1 == Timeout
  {
    var h1 := FollowAll(h, GetTagsWithNewInfoPass, r.newInfoEdges, c.newInfoStops).heap;
    ReportsKept(h.slots, h1.slots, r, c);
    if a.checks[0] then (h1, Timeout)
    else if a.checks[1] then (h1, Timeout)
    else
      var (h2, err) := RetagStartObjects(h1, objects, a.collect, a.retag);
      if err != NoError then (h2, err)
      else if a.checks[2] then (h2, Timeout)
      else VisitAndWalk(h1, h2, r, c, a.checks[3])
  }

  /**
   * The by-objects `tagHeap` times out when a phase boundary or the
   * collecting loop says so, and otherwise only when re-tagging stopped or
   * the deadline passed before a pending walk.
   */
  lemma TagHeapForObjectsTimesOut(h: Heap, objects: seq<ObjId>, r: Reports, c: Clock, a: Answers)
    requires HeapValid(h) && ReportsIn(h.slots, r, c) && |objects| <= h.engine.store.queries
    requires forall i :: 0 <= i < |objects| ==> objects[i] in h.slots
    requires AnswersFit(a, |objects|)
    ensures var err := TagHeapForObjects(h, objects, r, c, a).1;
            (err == Timeout ==> true in a.checks || true in a.collect || true in a.retag || true in c.late)
            && (true in a.checks || true in a.collect ==> err == Timeout)
  {
    assert a.checks == [a.checks[0], a.checks[1], a.checks[2], a.checks[3]];
    var h1 := FollowAll(h, GetTagsWithNewInfoPass, r.newInfoEdges, c.newInfoStops).heap;
    if !a.checks[0] && !a.checks[1] {
      ReportsKept(h.slots, h1.slots, r, c);
      var (h2, err) := RetagStartObjects(h1, objects, a.collect, a.retag);
      if err == NoError && !a.checks[2] {
        var v := VisitAndWalk(h1, h2, r, c, a.checks[3]);
        assert TagHeapForObjects(h, objects, r, c, a) == v;
        assert !(true in a.collect);
      }
    }
  }

  /** The heap, the listed objects and the reports fit one retained-size-by-objects call on a clean heap. */
  ghost predicate Ready(h: Heap, objects: seq<ObjId>, r: Reports, c: Clock) {
    HeapValid(h) && ReportsIn(h.slots, r, c) && h.engine.store.queries == |objects|
    && forall i :: 0 <= i < |objects| ==> objects[i] in h.slots && h.slots[objects[i]] == NO_TAG
  }

  /**
   * `estimateObjectsSizes`: the start tags, `tagHeap`, then
   * `calculateRetainedSizes`, which makes one zeroed slot per listed object
   * and runs the heap iteration with `visitObject`. An object listed twice
   * only makes `calculateRetainedSizes` log a fatal message and go on, so
   * it is no error here. The only error is the timeout, which a stop in the
   * first loops or at a phase boundary always causes; after it
   * `executeOperation` returns an empty array.
   */
  function EstimateObjectsSizes(h: Heap, objects: seq<ObjId>, r: Reports, c: Clock, a: Answers)
    : (res: RetainedSizeByClasses.Sizes)
    requires Ready(h, objects, r, c) && AnswersFit(a, |objects|)
    ensures res.err == NoError || res.err == Timeout
    ensures res.err == Timeout ==> true in a.create || true in a.collect || true in a.retag || true in a.checks || true in c.late
    ensures true in a.create || true in a.collect || true in a.checks ==> res.err == Timeout
    ensures res.err != NoError ==> res.result == []
  {
    var (h1, err) := CreateTagsForObjects(h, objects, a.create);
    if err != NoError then RetainedSizeByClasses.Sizes(h1, err, [])
    else
      ReportsKept(h.slots, h1.slots, r, c);
      TagHeapForObjectsTimesOut(h1, objects, r, c, a);
      var (h2, err2) := TagHeapForObjects(h1, objects, r, c, a);
      if err2 != NoError then RetainedSizeByClasses.Sizes(h2, err2, [])
      else
        ObjectsKept(h.slots, h2.slots, r.objects);
        RetainedSizeByClasses.Sizes(h2, NoError, RetainedSizeByClasses.RetainedSizes(RetainedSizeByClasses.Zeros(|objects|), h2, r.objects))
  }

  /**
   * Without an error the result has one slot per listed object, and slot
   * `q` holds the total size of what query `q` retains, also when the
   * object of query `q` is listed more than once.
   */
  lemma EstimateObjectsSizesResult(h: Heap, objects: seq<ObjId>, r: Reports, c: Clock, a: Answers)
    requires Ready(h, objects, r, c) && AnswersFit(a, |objects|)
    ensures var res := EstimateObjectsSizes(h, objects, r, c, a);
            res.err == NoError ==>
              |res.result| == |objects| && RetainedSizeByClasses.ObjectsIn(res.heap, r.objects)
              && forall q :: 0 <= q < |objects| ==> res.result[q] == RetainedSizeByClasses.Total(res.heap, r.objects, q)
  {
    var res := EstimateObjectsSizes(h, objects, r, c, a);
    if res.err == NoError {
      var (h1, err) := CreateTagsForObjects(h, objects, a.create);
      ReportsKept(h.slots, h1.slots, r, c);
      TagHeapForObjectsTimesOut(h1, objects, r, c, a);
      var (h2, err2) := TagHeapForObjects(h1, objects, r, c, a);
      assert res.heap == h2;
      ObjectsKept(h.slots, h2.slots, r.objects);
      RetainedSizeByClasses.ZeroTotals(h2, |objects|, r.objects);
    }
  }

  /** `createTagForObject` on the callbacks' state in place. */
  method CreateTagForObjectInPlace(cb: Callbacks, o: ObjId, i: QueryIndex)
    requires cb.Valid() && o in cb.slots && i < cb.tags.queries && Fits(cb.HeapState(), o, i)
    modifies cb, cb.tags
    ensures cb.Valid() && cb.HeapState() == CreateTagForObject(old(cb.HeapState()), o, i)
  {
    ghost var h := cb.HeapState();
    var oldTag := cb.slots[o];
    ghost var m := AfterCreate(h.engine.store, i, StartState);
    var tag := cb.tags.Create(i, StartState);
    if oldTag != NO_TAG && oldTag != TAG_WITH_NEW_INFO {
      assert Live(h.engine.store, oldTag);
      cb.tags.Extend(oldTag, tag);
      cb.tags.Delete(tag);
      assert cb.HeapState() == Heap(h.engine.(store := AfterDelete(AfterExtend(m.store, oldTag, m.tag), m.tag)), h.slots);
    } else {
      cb.slots := cb.slots[o := tag];
      assert cb.HeapState() == Heap(h.engine.(store := m.store), h.slots[o := m.tag]);
    }
    assert cb.HeapState() == CreateTagForObject(h, o, i);
  }

  /** The next query on top of the earlier ones, through `createTagForObject` in place. */
  method CreateNextTag(cb: Callbacks, ghost h0: Heap, ghost starts: seq<Start>, o: ObjId, i: QueryIndex)
    requires HeapValid(h0) && StartsReady(h0, starts) && starts != [] && starts[|starts| - 1] == Start(o, i)
    requires StartsReady(h0, starts[..|starts| - 1]) && cb.HeapState() == CreateTags(h0, starts[..|starts| - 1])
    modifies cb, cb.tags
    ensures cb.Valid() && cb.HeapState() == CreateTags(h0, starts)
  {
    CreateTagsTagged(h0, starts[..|starts| - 1]);
    TagStep(h0, cb.HeapState(), starts);
    CreateTagForObjectInPlace(cb, o, i);
  }

  /** One iteration of `createTagsForObjects`: the tag for listed object `i`. */
  method CreateTagsForObjectsStep(cb: Callbacks, ghost h0: Heap, objects: seq<ObjId>, i: nat)
    requires HeapValid(h0) && |objects| <= h0.engine.store.queries && i < |objects|
    requires forall k :: 0 <= k < |objects| ==> objects[k] in h0.slots && h0.slots[objects[k]] == NO_TAG
    requires StartsReady(h0, Enumerate(objects)[..i]) && StartsReady(h0, Enumerate(objects)[..i + 1])
    requires cb.HeapState() == CreateTags(h0, Enumerate(objects)[..i])
    modifies cb, cb.tags
    ensures cb.Valid() && cb.HeapState() == CreateTags(h0, Enumerate(objects)[..i + 1])
  {
    ghost var es := Enumerate(objects);
    assert es[..i + 1][..i] == es[..i] && es[..i + 1][i] == Start(objects[i], i);
    CreateNextTag(cb, h0, es[..i + 1], objects[i], i);
  }

  /** `createTagsForObjects` on the callbacks' state in place. */
  method CreateTagsForObjectsInPlace(cb: Callbacks, objects: seq<ObjId>, stops: seq<bool>) returns (err: AgentError)
    requires cb.Valid() && |objects| <= cb.tags.queries && |stops| == |objects|
    requires forall i :: 0 <= i < |objects| ==> objects[i] in cb.slots && cb.slots[objects[i]] == NO_TAG
    modifies cb, cb.tags
    ensures cb.Valid() && (cb.HeapState(), err) == CreateTagsForObjects(old(cb.HeapState()), objects, stops)
  {
    ghost var h0 := cb.HeapState();
    EnumerateReady(h0, objects, 0);
    var i := 0;
    while i < |objects|
      invariant 0 <= i <= |objects| && i <= FirstTrue(stops)
      invariant StartsReady(h0, Enumerate(objects)[..i])
      invariant cb.Valid() && cb.HeapState() == CreateTags(h0, Enumerate(objects)[..i])
    {
      EnumerateReady(h0, objects, i + 1);
      CreateTagsForObjectsStep(cb, h0, objects, i);
      FirstTrueAt(stops, i);
      if stops[i] {
        CreateTagsForObjectsExit(h0, objects, stops, i + 1);
        return Timeout;
      }
      i := i + 1;
    }
    CreateTagsForObjectsExit(h0, objects, stops, i);
    err := NoError;
  }

  /** Where `createTagsForObjects` leaves its loop: after the first stop, or after the last object. */
  lemma CreateTagsForObjectsExit(h: Heap, objects: seq<ObjId>, stops: seq<bool>, n: nat)
    requires HeapValid(h) && |objects| <= h.engine.store.queries && |stops| == |objects|
    requires forall i :: 0 <= i < |objects| ==> objects[i] in h.slots && h.slots[objects[i]] == NO_TAG
    requires (0 < n <= |objects| && n - 1 <= FirstTrue(stops) && stops[n - 1]) || n == |objects| == FirstTrue(stops)
    ensures CreateTagsForObjects(h, objects, stops)
            == (CreateTags(h, Enumerate(objects)[..n]), if n - 1 == FirstTrue(stops) then Timeout else NoError)
  {
  }

  /** A stop at position `j` that no earlier answer preceded is the first one. */
  lemma FirstTrueAt(bs: seq<bool>, j: nat)
    requires j <= FirstTrue(bs) && j < |bs|
    ensures bs[j] ==> FirstTrue(bs) == j
    ensures !bs[j] ==> j + 1 <= FirstTrue(bs)
  {
  }

  /** The first loop of `retagStartObjects`: the listed objects holding `TagWithNewInfo`, with their positions. */
  method CollectNewInfo(cb: Callbacks, objects: seq<ObjId>, collect: seq<bool>) returns (stopped: bool, ps: seq<Start>)
    requires |objects| <= MAX_SIZE + 1 && forall i :: 0 <= i < |objects| ==> objects[i] in cb.slots
    requires |collect| == |objects|
    ensures stopped <==> FirstTrue(collect) < |collect|
    ensures !stopped ==> ps == NewInfoStarts(cb.slots, objects, |objects|)
  {
    ps := [];
    var i := 0;
    while i < |objects|
      invariant 0 <= i <= |objects| && i <= FirstTrue(collect)
      invariant ps == NewInfoStarts(cb.slots, objects, i)
    {
      var oldTag := cb.slots[objects[i]];
      FirstTrueAt(collect, i);
      if collect[i] {
        return true, ps;
      }
      if oldTag == TAG_WITH_NEW_INFO {
        ps := ps + [Start(objects[i], i)];
      }
      i := i + 1;
    }
    stopped := false;
  }

  /**
   * The second loop of `retagStartObjects`: `createTagForObject` on the
   * collected objects until the first stop request, which gives the
   * timeout error.
   */
  method RetagCollected(cb: Callbacks, ps: seq<Start>, retag: seq<bool>) returns (err: AgentError)
    requires cb.Valid() && StartsReady(cb.HeapState(), ps) && |ps| <= |retag|
    modifies cb, cb.tags
    ensures var j := FirstTrue(retag[..|ps|]);
            var n := if j < |ps| then j + 1 else |ps|;
            StartsReady(old(cb.HeapState()), ps[..n]) && cb.Valid()
            && cb.HeapState() == CreateTags(old(cb.HeapState()), ps[..n])
            && err == if j < |ps| then Timeout else NoError
  {
    ghost var h := cb.HeapState();
    ghost var rs := retag[..|ps|];
    PrefixReady(h, ps, 0);
    var j := 0;
    while j < |ps|
      invariant 0 <= j <= |ps| && j <= FirstTrue(rs)
      invariant StartsReady(h, ps[..j])
      invariant cb.Valid() && cb.HeapState() == CreateTags(h, ps[..j])
    {
      PrefixReady(h, ps, j + 1);
      assert ps[..j + 1][..j] == ps[..j];
      CreateNextTag(cb, h, ps[..j + 1], ps[j].obj, ps[j].index);
      assert rs[j] == retag[j];
      FirstTrueAt(rs, j);
      if retag[j] {
        assert FirstTrue(rs) == j && StartsReady(h, ps[..j + 1]) && cb.HeapState() == CreateTags(h, ps[..j + 1]);
        return Timeout;
      }
      j := j + 1;
    }
    assert ps[..j] == ps && FirstTrue(rs) == |ps|;
    err := NoError;
  }

  /** `retagStartObjects` on the callbacks' state in place, the collected objects kept in a list. */
  method RetagStartObjectsInPlace(cb: Callbacks, objects: seq<ObjId>, collect: seq<bool>, retag: seq<bool>)
    returns (err: AgentError)
    requires cb.Valid() && |objects| <= cb.tags.queries
    requires forall i :: 0 <= i < |objects| ==> objects[i] in cb.slots
    requires |collect| == |objects| && |retag| == |objects|
    modifies cb, cb.tags
    ensures cb.Valid() && (cb.HeapState(), err) == RetagStartObjects(old(cb.HeapState()), objects, collect, retag)
  {
    ghost var h := cb.HeapState();
    var stopped, ps := CollectNewInfo(cb, objects, collect);
    if stopped {
      return Timeout;
    }
    assert StartsReady(h, ps);
    err := RetagCollected(cb, ps, retag);
    ghost var j := FirstTrue(retag[..|ps|]);
    ghost var n := if j < |ps| then j + 1 else |ps|;
    assert RetagStartObjects(h, objects, collect, retag) == (CreateTags(h, ps[..n]), err);
  }

  /** `tagHeap` of the by-objects action on the callbacks' state in place. */
  method TagHeapForObjectsInPlace(cb: Callbacks, objects: seq<ObjId>, r: Reports, c: Clock, a: Answers)
    returns (err: AgentError)
    requires cb.Valid() && ReportsIn(cb.slots, r, c) && |objects| <= cb.tags.queries
    requires forall i :: 0 <= i < |objects| ==> objects[i] in cb.slots
    requires AnswersFit(a, |objects|)
    modifies cb, cb.tags
    ensures cb.Valid() && (cb.HeapState(), err) == TagHeapForObjects(old(cb.HeapState()), objects, r, c, a)
  {
    ghost var h := cb.HeapState();
    var _ := cb.FollowReferences(GetTagsWithNewInfoPass, r.newInfoEdges, c.newInfoStops);
    ReportsKept(h.slots, cb.slots, r, c);
    if a.checks[0] {
      return Timeout;
    }
    var slots1 := cb.slots;
    ghost var h1 := cb.HeapState();
    var pending := Pending(slots1, r.objects);
    if a.checks[1] {
      return Timeout;
    }
    err := RetagStartObjectsInPlace(cb, objects, a.collect, a.retag);
    if err != NoError {
      return;
    }
    if a.checks[2] {
      return Timeout;
    }
    err := VisitAndWalkInPlace(cb, h1, slots1, pending, r, c, a.checks[3]);
  }

  /** `estimateObjectsSizes` on the callbacks' state in place. */
  method EstimateObjectsSizesInPlace(cb: Callbacks, objects: seq<ObjId>, r: Reports, c: Clock, a: Answers)
    returns (err: AgentError, result: seq<int>)
    requires cb.Valid() && Ready(cb.HeapState(), objects, r, c) && AnswersFit(a, |objects|)
    modifies cb, cb.tags
    ensures cb.Valid()
    ensures RetainedSizeByClasses.Sizes(cb.HeapState(), err, result) == EstimateObjectsSizes(old(cb.HeapState()), objects, r, c, a)
  {
    ghost var h := cb.HeapState();
    err := CreateTagsForObjectsInPlace(cb, objects, a.create);
    if err != NoError {
      return err, [];
    }
    ReportsKept(h.slots, cb.slots, r, c);
    ghost var h1 := cb.HeapState();
    err := TagHeapForObjectsInPlace(cb, objects, r, c, a);
    ghost var h2 := cb.HeapState();
    assert (h2, err) == TagHeapForObjects(h1, objects, r, c, a);
    if err != NoError {
      return err, [];
    }
    ObjectsKept(h.slots, h2.slots, r.objects);
    result := RetainedSizeByClasses.RetainedTotals(cb, |objects|, r.objects);
  }
}
