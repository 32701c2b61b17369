/**
 * The heap callbacks of the retained-size engine and the JVM iterations
 * that drive them.
 *
 * JVMTI calls a reference callback once per reference it reports, passing
 * the referee's tag slot and the referrer's tag slot (none for a heap
 * root), and an iteration callback once per heap object. Each callback is
 * modelled twice: as a function from the engine state and the slot values
 * to a `Step`, and as a method of `Callbacks` that changes the live tags,
 * the global `tagsWithNewInfo` set and the slot in place and is proved to
 * do what the function says. The JVM's tag slots are a map from the heap's
 * objects to tag values; `FollowReferences` and `IterateThroughHeap` are
 * modelled as loops over the references or objects they report.
 */
module SizesCallbacks {
  import opened Jvmti
  import opened SizesState
  import opened TagInfoArrays
  import opened SizesTags

  /** What the callbacks share: the live tags and the global `tagsWithNewInfo` set. */
  datatype Engine = Engine(store: Store, newInfo: set<int>)

  /** What one callback did: the engine after it, its return value, and the new value of `*tagPtr`. */
  datatype Step = Step(engine: Engine, visit: Visit, tag: int)

  /** The engine together with the JVM's tag slot of every heap object. */
  datatype Heap = Heap(engine: Engine, slots: map<ObjId, int>)

  /** A valid store whose slots hold live tags, none of them released. */
  ghost predicate HeapValid(h: Heap) {
    StoreValid(h.engine.store) && SlotsValid(h.engine.store, h.slots)
  }

  /** The referrer is a heap root or carries `EmptyTag`. */
  predicate FromUntagged(rer: Option<int>) {
    rer.None? || rer.value == EMPTY_TAG
  }

  /**
   * `handleReferrersWithNoInfo`: the edges whose referrer has no query
   * information to pass on. `None` means the edge is not handled here;
   * otherwise the store after the edge and the referee's new tag.
   */
  function HandleNoInfo(s: Store, rer: Option<int>, tag: int, setNewInfo: bool): (r: Option<Made>)
    requires Live(s, tag) && (rer.Some? ==> Live(s, rer.value))
    ensures r.None? <==>
              rer.Some? && rer.value != NO_TAG && rer.value != EMPTY_TAG && rer.value != TAG_WITH_NEW_INFO
              && s.tags[rer.value].id == 0
  {
    if FromUntagged(rer) then
      if tag == NO_TAG then Some(Made(s, EMPTY_TAG))
      else if tag == EMPTY_TAG then Some(Made(s, tag))
      else if setNewInfo && s.tags[tag].alreadyReferred then Some(Made(AfterUnref(s, tag), TAG_WITH_NEW_INFO))
      else Some(Made(AfterVisitFromUntaggedReferrer(s, tag), tag))
    else if rer.value == TAG_WITH_NEW_INFO || rer.value == NO_TAG || s.tags[rer.value].id > 0 then
      Some(Made(s, tag))
    else
      None
  }

  /** `tagsAreValidForMerge`: distinct tags, a referrer bringing new entries, and a referee that is no class tag. */
  predicate ValidForMerge(s: Store, ree: int, rer: int)
    requires ree in s.tags && rer in s.tags
  {
    ree != rer && !Covered(s.tags[rer].entries, s.tags[ree].entries) && s.tags[ree].id == 0
  }

  /**
   * The middle of `getTagsWithNewInfo`: an untagged referee shares the
   * referrer's tag, a mergeable referee already referred to becomes
   * `TagWithNewInfo`, another mergeable referee is merged.
   */
  function ReceiveNewInfo(s: Store, tag: int, r: int): (m: Made)
    requires Live(s, tag) && r in s.tags && r != NO_TAG
    ensures r in m.store.tags
  {
    if tag == NO_TAG then AfterShare(s, r)
    else if ValidForMerge(s, tag, r) then
      if s.tags[tag].alreadyReferred then Made(AfterUnref(s, tag), TAG_WITH_NEW_INFO)
      else AfterMerge(s, tag, r)
    else Made(s, tag)
  }

  /** `getTagsWithNewInfo`, the first reference pass of `tagHeap`. */
  function GetTagsWithNewInfoStep(e: Engine, kind: int, rer: Option<int>, tag: int, stop: bool): Step
    requires Live(e.store, tag) && (rer.Some? ==> Live(e.store, rer.value))
  {
    if stop then Step(e, VisitAbort, tag)
    else if IsJniReference(kind) || tag == TAG_WITH_NEW_INFO then Step(e, VisitObjects, tag)
    else match HandleNoInfo(e.store, rer, tag, true)
      case Some(m) => Step(e.(store := m.store), VisitObjects, m.tag)
      case None =>
        var m := ReceiveNewInfo(e.store, tag, rer.value);
        Step(e.(store := AfterMarkReferred(m.store, rer.value)), VisitObjects, m.tag)
  }

  /** `visitReference`, the second reference pass of `tagHeap`. */
  function VisitReferenceStep(e: Engine, kind: int, rer: Option<int>, tag: int, stop: bool): Step
    requires Live(e.store, tag) && (rer.Some? ==> Live(e.store, rer.value))
  {
    if stop then Step(e, VisitAbort, tag)
    else if IsJniReference(kind) then Step(e, VisitObjects, tag)
    else match HandleNoInfo(e.store, rer, tag, false)
      case Some(m) => Step(e.(store := m.store), VisitObjects, m.tag)
      case None =>
        var r := rer.value;
        if tag == NO_TAG then
          var m := AfterShare(e.store, r);
          Step(e.(store := m.store), VisitObjects, m.tag)
        else if tag == TAG_WITH_NEW_INFO then
          var m := AfterShare(e.store, r);
          Step(Engine(m.store, e.newInfo + {m.tag}), VisitObjects, m.tag)
        else if ValidForMerge(e.store, tag, r) then
          var m := AfterMerge(e.store, tag, r);
          Step(Engine(m.store, e.newInfo - {tag} + {m.tag}), VisitObjects, m.tag)
        else
          Step(e, VisitObjects, tag)
  }

  /**
   * `spreadInfo`, the callback of the walks from objects with new
   * information. These walks start at an object, so every reported
   * reference has a referrer.
   */
  function SpreadInfoStep(e: Engine, kind: int, rer: int, tag: int, stop: bool): Step
    requires Live(e.store, tag) && Live(e.store, rer)
  {
    if stop then Step(e, VisitAbort, tag)
    else if !IsJniReference(kind) && tag != NO_TAG && rer != NO_TAG then
      var e1 := e.(newInfo := e.newInfo - {tag});
      if rer != tag && !Covered(e.store.tags[rer].entries, e.store.tags[tag].entries) then
        var m := AfterMerge(e.store, tag, rer);
        Step(e1.(store := m.store), VisitObjects, m.tag)
      else
        Step(e1, VisitObjects, tag)
    else
      Step(e, VisitObjects, tag)
  }

  /** `clearTag`: a tagged object releases its tag and becomes untagged. */
  function ClearTagStep(e: Engine, tag: int): Step
    requires Live(e.store, tag)
  {
    if tag == NO_TAG then Step(e, IterationContinue, NO_TAG)
    else Step(e.(store := AfterUnref(e.store, tag)), IterationContinue, NO_TAG)
  }

  /** The start state of an instance of a listed class. */
  const ClassStartState: State := CreateState(true, true, false, false)

  /**
   * `retagStartObjects`: an instance of a listed class still marked
   * `TagWithNewInfo` gets a fresh start tag for its class's query, which is
   * recorded as carrying new information.
   */
  function RetagStartObjectsStep(e: Engine, classTag: int, tag: int): Step
    requires StoreValid(e.store) && Live(e.store, classTag)
  {
    if classTag != NO_TAG && e.store.tags[classTag].id > 0 && tag == TAG_WITH_NEW_INFO then
      var m := AfterCreate(e.store, e.store.tags[classTag].id - 1, ClassStartState);
      Step(Engine(m.store, e.newInfo + {m.tag}), IterationContinue, m.tag)
    else
      Step(e, IterationContinue, tag)
  }

  /**
   * `tagObjectOfTaggedClass`: an instance of a listed class gets a start
   * tag for its class's query. An instance that is itself a listed class
   * keeps its own class id in a class start tag and its old tag is
   * destroyed, so its slot must hold a heap tag.
   */
  function TagObjectOfTaggedClassStep(e: Engine, classTag: int, tag: int): Step
    requires StoreValid(e.store) && Live(e.store, classTag) && Live(e.store, tag)
    requires tag == NO_TAG || tag >= FIRST_HEAP_TAG
  {
    if classTag != NO_TAG && e.store.tags[classTag].id > 0 then
      var index := e.store.tags[classTag].id - 1;
      if tag == NO_TAG then
        var m := AfterCreate(e.store, index, ClassStartState);
        Step(e.(store := m.store), IterationContinue, m.tag)
      else
        var m := AfterCreateClassStartTag(e.store, index, ClassStartState, e.store.tags[tag].id);
        Step(e.(store := AfterDelete(m.store, tag)), IterationContinue, m.tag)
    else
      Step(e, IterationContinue, tag)
  }

  /** How much an object of size `size` with entries `es` adds to query `q`'s retained size. */
  function Contribution(es: seq<TagInfo>, q: int, size: int): int {
    match Find(es, q)
    case Some(st) => if IsRetained(st) then size else 0
    case None => 0
  }

  /** `visitObject`'s loop: `size` added to `acc[index]` for every retained entry, in order. */
  function AddRetained(acc: seq<int>, es: seq<TagInfo>, size: int): (r: seq<int>)
    requires forall e :: e in es ==> e.index < |acc|
    ensures |r| == |acc|
    decreases |es|
  {
    if es == [] then acc
    else
      var acc2 := if IsRetained(es[0].state) then acc[es[0].index := acc[es[0].index] + size] else acc;
      AddRetained(acc2, es[1..], size)
  }

  /**
   * On a tag's sorted entries, every query gains the object's size exactly
   * when the object's state for it is retained.
   */
  lemma AddRetainedSum(acc: seq<int>, es: seq<TagInfo>, size: int)
    requires Sorted(es) && forall e :: e in es ==> e.index < |acc|
    ensures forall q :: 0 <= q < |acc| ==> AddRetained(acc, es, size)[q] == acc[q] + Contribution(es, q, size)
  {
    forall q | 0 <= q < |acc| ensures AddRetained(acc, es, size)[q] == acc[q] + Contribution(es, q, size) {
      AddRetainedAt(acc, es, size, q);
    }
  }

  /** The same, for one query `q`. */
  lemma {:induction false} AddRetainedAt(acc: seq<int>, es: seq<TagInfo>, size: int, q: int)
    requires Sorted(es) && (forall e :: e in es ==> e.index < |acc|) && 0 <= q < |acc|
    ensures AddRetained(acc, es, size)[q] == acc[q] + Contribution(es, q, size)
    decreases |es|
  {
    if es != [] {
      var acc2 := if IsRetained(es[0].state) then acc[es[0].index := acc[es[0].index] + size] else acc;
      SortedTail(es);
      assert forall e :: e in es[1..] ==> e in es;
      AddRetainedAt(acc2, es[1..], size, q);
      if q == es[0].index {
        FindAbsent(es[1..], q);
      }
    }
  }

  /** The loop of `visitObject` over a tag's entries, adding into `result` in place. */
  method AddRetainedInPlace(result: array<int>, es: seq<TagInfo>, size: int)
    requires forall e :: e in es ==> e.index < result.Length
    modifies result
    ensures result[..] == AddRetained(old(result[..]), es, size)
  {
    var i := 0;
    while i < |es|
      invariant 0 <= i <= |es|
      invariant AddRetained(result[..], es[i..], size) == AddRetained(old(result[..]), es, size)
    {
      ghost var before := result[..];
      assert es[i..][1..] == es[i + 1..] && es[i..][0] == es[i];
      var x := es[i];
      if IsRetained(x.state) {
        result[x.index] := result[x.index] + size;
        assert result[..] == before[x.index := before[x.index] + size];
      }
      i := i + 1;
    }
  }

  /** The three reference callbacks, for the iteration that drives them. */
  datatype RefPass = GetTagsWithNewInfoPass | VisitReferencePass | SpreadInfoPass

  /** The three iteration callbacks that change tags. */
  datatype ObjectPass = ClearTagPass | RetagStartObjectsPass | TagObjectOfTaggedClassPass

  /** The callback of `pass` for one reference. */
  function RefStep(e: Engine, pass: RefPass, kind: int, rer: Option<int>, tag: int, stop: bool): Step
    requires Live(e.store, tag) && (rer.Some? ==> Live(e.store, rer.value))
    requires pass == SpreadInfoPass ==> rer.Some?
  {
    match pass
    case GetTagsWithNewInfoPass => GetTagsWithNewInfoStep(e, kind, rer, tag, stop)
    case VisitReferencePass => VisitReferenceStep(e, kind, rer, tag, stop)
    case SpreadInfoPass => SpreadInfoStep(e, kind, rer.value, tag, stop)
  }

  /** Every heap tag has exactly one reference: nothing has been shared yet. */
  ghost predicate AllSingle(s: Store) {
    forall a :: a >= FIRST_HEAP_TAG ==> RefCount(s, a) <= 1
  }

  /** The callback of `pass` for one object. */
  function ObjectStep(e: Engine, pass: ObjectPass, classTag: int, tag: int): Step
    requires StoreValid(e.store) && Live(e.store, classTag) && Live(e.store, tag)
    requires pass == TagObjectOfTaggedClassPass ==> tag == NO_TAG || tag >= FIRST_HEAP_TAG
  {
    match pass
    case ClearTagPass => ClearTagStep(e, tag)
    case RetagStartObjectsPass => RetagStartObjectsStep(e, classTag, tag)
    case TagObjectOfTaggedClassPass => TagObjectOfTaggedClassStep(e, classTag, tag)
  }

  /** A step that moves one slot from `tag` to its new value without releasing a tag other slots still hold. */
  ghost predicate SoundStep(s: Store, st: Step, tag: int) {
    StoreValid(st.engine.store) && Live(st.engine.store, st.tag) && Accounted(s, st.engine.store, tag, st.tag)
    && st.engine.store.queries == s.queries
  }

  /** `handleReferrersWithNoInfo` keeps the store valid and accounts for the referee's slot. */
  lemma HandleNoInfoSound(s: Store, rer: Option<int>, tag: int, setNewInfo: bool)
    requires StoreValid(s) && Live(s, tag) && (rer.Some? ==> Live(s, rer.value))
    requires HandleNoInfo(s, rer, tag, setNewInfo).Some?
    ensures var m := HandleNoInfo(s, rer, tag, setNewInfo).value;
            StoreValid(m.store) && Live(m.store, m.tag) && Accounted(s, m.store, tag, m.tag)
            && (rer.Some? && rer.value != NO_TAG ==> rer.value in m.store.tags)
  {
    var m := HandleNoInfo(s, rer, tag, setNewInfo).value;
    NoCountChange(s, EMPTY_TAG, tag);
    if FromUntagged(rer) && tag != NO_TAG && tag != EMPTY_TAG {
      if setNewInfo && s.tags[tag].alreadyReferred {
        UnrefValid(s, tag);
        UnrefAccounted(s, tag, TAG_WITH_NEW_INFO);
      } else {
        VisitValid(s, tag);
        NoCountChange(s, tag, tag);
        AccountedThen(s, s, m.store, tag, tag);
      }
    }
  }

  /** `getTagsWithNewInfo` keeps the store valid and accounts for the referee's slot. */
  lemma GetTagsWithNewInfoSound(e: Engine, kind: int, rer: Option<int>, tag: int, stop: bool)
    requires StoreValid(e.store) && Live(e.store, tag) && (rer.Some? ==> Live(e.store, rer.value))
    ensures SoundStep(e.store, GetTagsWithNewInfoStep(e, kind, rer, tag, stop), tag)
  {
    var st := GetTagsWithNewInfoStep(e, kind, rer, tag, stop);
    NoCountChange(e.store, EMPTY_TAG, tag);
    if !stop && !IsJniReference(kind) && tag != TAG_WITH_NEW_INFO {
      var h := HandleNoInfo(e.store, rer, tag, true);
      if h.Some? {
        HandleNoInfoSound(e.store, rer, tag, true);
      } else {
        var r := rer.value;
        var s := e.store;
        var m := ReceiveNewInfo(s, tag, r);
        if tag == NO_TAG {
          ShareValid(s, r);
          ShareAccounted(s, r, tag);
        } else if ValidForMerge(s, tag, r) {
          if s.tags[tag].alreadyReferred {
            UnrefValid(s, tag);
            UnrefAccounted(s, tag, TAG_WITH_NEW_INFO);
          } else {
            MergeValid(s, tag, r);
            MergeAccounted(s, tag, r);
          }
        }
        VisitValid(m.store, r);
        NoCountChange(m.store, r, tag);
        AccountedThen(s, m.store, st.engine.store, tag, m.tag);
      }
    }
  }

  /** `visitReference` keeps the store valid and accounts for the referee's slot. */
  lemma VisitReferenceSound(e: Engine, kind: int, rer: Option<int>, tag: int, stop: bool)
    requires StoreValid(e.store) && Live(e.store, tag) && (rer.Some? ==> Live(e.store, rer.value))
    ensures SoundStep(e.store, VisitReferenceStep(e, kind, rer, tag, stop), tag)
  {
    NoCountChange(e.store, EMPTY_TAG, tag);
    if !stop && !IsJniReference(kind) {
      var h := HandleNoInfo(e.store, rer, tag, false);
      if h.Some? {
        HandleNoInfoSound(e.store, rer, tag, false);
      } else {
        var r := rer.value;
        if tag == NO_TAG || tag == TAG_WITH_NEW_INFO {
          ShareValid(e.store, r);
          ShareAccounted(e.store, r, tag);
        } else if ValidForMerge(e.store, tag, r) {
          MergeValid(e.store, tag, r);
          MergeAccounted(e.store, tag, r);
        }
      }
    }
  }

  /** `spreadInfo` keeps the store valid and accounts for the referee's slot. */
  lemma SpreadInfoSound(e: Engine, kind: int, rer: int, tag: int, stop: bool)
    requires StoreValid(e.store) && Live(e.store, tag) && Live(e.store, rer)
    ensures SoundStep(e.store, SpreadInfoStep(e, kind, rer, tag, stop), tag)
  {
    NoCountChange(e.store, EMPTY_TAG, tag);
    if !stop && !IsJniReference(kind) && tag != NO_TAG && rer != NO_TAG
       && rer != tag && !Covered(e.store.tags[rer].entries, e.store.tags[tag].entries) {
      MergeValid(e.store, tag, rer);
      MergeAccounted(e.store, tag, rer);
    }
  }

  /** Every reference callback keeps the store valid and accounts for the referee's slot. */
  lemma RefStepSound(e: Engine, pass: RefPass, kind: int, rer: Option<int>, tag: int, stop: bool)
    requires StoreValid(e.store) && Live(e.store, tag) && (rer.Some? ==> Live(e.store, rer.value))
    requires pass == SpreadInfoPass ==> rer.Some?
    ensures SoundStep(e.store, RefStep(e, pass, kind, rer, tag, stop), tag)
  {
    match pass
    case GetTagsWithNewInfoPass => GetTagsWithNewInfoSound(e, kind, rer, tag, stop);
    case VisitReferencePass => VisitReferenceSound(e, kind, rer, tag, stop);
    case SpreadInfoPass => SpreadInfoSound(e, kind, rer.value, tag, stop);
  }

  /** A fresh tag put into a slot that held no heap tag is accounted. */
  lemma AddAccounted(s: Store, r: TagRec, t: int)
    requires StoreValid(s) && r.refCount >= 1 && t < FIRST_HEAP_TAG
    ensures Accounted(s, AfterAdd(s, r).store, t, AfterAdd(s, r).tag)
  {
    var m := AfterAdd(s, r);
    assert s.next !in s.tags;
    forall a | a >= FIRST_HEAP_TAG
      ensures RefCount(m.store, a) >= RefCount(s, a) - (if t == a then 1 else 0) + (if m.tag == a then 1 else 0)
    {
      if a != m.tag {
        assert RefCount(m.store, a) == RefCount(s, a);
      }
    }
  }

  /** `clearTag` keeps the store valid and accounts for the object's slot. */
  lemma ClearTagSound(e: Engine, tag: int)
    requires StoreValid(e.store) && Live(e.store, tag)
    ensures SoundStep(e.store, ClearTagStep(e, tag), tag)
  {
    NoCountChange(e.store, EMPTY_TAG, tag);
    if tag != NO_TAG {
      UnrefValid(e.store, tag);
      UnrefAccounted(e.store, tag, NO_TAG);
    }
  }

  /** `retagStartObjects` keeps the store valid and accounts for the object's slot. */
  lemma RetagStartObjectsSound(e: Engine, classTag: int, tag: int)
    requires StoreValid(e.store) && Live(e.store, classTag) && Live(e.store, tag)
    ensures SoundStep(e.store, RetagStartObjectsStep(e, classTag, tag), tag)
  {
    var s := e.store;
    NoCountChange(s, EMPTY_TAG, tag);
    if classTag != NO_TAG && s.tags[classTag].id > 0 && tag == TAG_WITH_NEW_INFO {
      CreateValid(s, s.tags[classTag].id - 1, ClassStartState, 0);
      AddAccounted(s, StartRec(s.tags[classTag].id - 1, ClassStartState), tag);
    }
  }

  /** A fresh tag in a store whose heap tags have one reference each keeps it so. */
  lemma AddSingle(s: Store, r: TagRec)
    requires StoreValid(s) && AllSingle(s) && r.refCount == 1
    ensures AllSingle(AfterAdd(s, r).store)
  {
    var s2 := AfterAdd(s, r).store;
    forall a | a >= FIRST_HEAP_TAG ensures RefCount(s2, a) <= 1 {
      assert a != s.next ==> RefCount(s2, a) == RefCount(s, a);
    }
  }

  /**
   * `tagObjectOfTaggedClass` destroys the old tag outright. That is sound
   * only while every heap tag has one reference, and it keeps that so.
   */
  lemma TagObjectOfTaggedClassSound(e: Engine, classTag: int, tag: int)
    requires StoreValid(e.store) && Live(e.store, classTag) && Live(e.store, tag)
    requires (tag == NO_TAG || tag >= FIRST_HEAP_TAG) && AllSingle(e.store)
    ensures SoundStep(e.store, TagObjectOfTaggedClassStep(e, classTag, tag), tag)
    ensures AllSingle(TagObjectOfTaggedClassStep(e, classTag, tag).engine.store)
  {
    var s := e.store;
    var st := TagObjectOfTaggedClassStep(e, classTag, tag);
    NoCountChange(s, EMPTY_TAG, tag);
    if classTag != NO_TAG && s.tags[classTag].id > 0 {
      var index := s.tags[classTag].id - 1;
      if tag == NO_TAG {
        CreateValid(s, index, ClassStartState, 0);
        AddAccounted(s, StartRec(index, ClassStartState), tag);
        AddSingle(s, StartRec(index, ClassStartState));
      } else {
        var id := s.tags[tag].id;
        CreateValid(s, index, ClassStartState, id);
        var m := AfterCreateClassStartTag(s, index, ClassStartState, id);
        AddSingle(s, ClassStartRec(index, ClassStartState, id));
        DeleteValid(m.store, tag);
        DeleteAccounted(s, ClassStartRec(index, ClassStartState, id), tag);
      }
    }
  }

  /** Destroying the slot's old single-reference tag after adding its replacement is accounted. */
  lemma DeleteAccounted(s: Store, r: TagRec, tag: int)
    requires StoreValid(s) && tag in s.tags && tag >= FIRST_HEAP_TAG && RefCount(s, tag) <= 1
    requires r.refCount >= 1 && AllSingle(AfterAdd(s, r).store)
    ensures var m := AfterAdd(s, r);
            Accounted(s, AfterDelete(m.store, tag), tag, m.tag) && AllSingle(AfterDelete(m.store, tag))
  {
    var m := AfterAdd(s, r);
    var s2 := AfterDelete(m.store, tag);
    assert s.next !in s.tags;
    forall a | a >= FIRST_HEAP_TAG
      ensures RefCount(s2, a) >= RefCount(s, a) - (if tag == a then 1 else 0) + (if m.tag == a then 1 else 0)
      ensures RefCount(s2, a) <= 1
    {
      assert RefCount(s2, a) <= RefCount(m.store, a);
      if a != tag && a != m.tag {
        assert RefCount(s2, a) == RefCount(s, a);
      }
    }
  }

  /** The iteration callbacks keep the store valid and account for the object's slot. */
  lemma ObjectStepSound(e: Engine, pass: ObjectPass, classTag: int, tag: int)
    requires StoreValid(e.store) && Live(e.store, classTag) && Live(e.store, tag)
    requires pass == TagObjectOfTaggedClassPass ==> (tag == NO_TAG || tag >= FIRST_HEAP_TAG) && AllSingle(e.store)
    ensures SoundStep(e.store, ObjectStep(e, pass, classTag, tag), tag)
    ensures pass == TagObjectOfTaggedClassPass ==> AllSingle(ObjectStep(e, pass, classTag, tag).engine.store)
  {
    match pass
    case ClearTagPass => ClearTagSound(e, tag);
    case RetagStartObjectsPass => RetagStartObjectsSound(e, classTag, tag);
    case TagObjectOfTaggedClassPass => TagObjectOfTaggedClassSound(e, classTag, tag);
  }

  /** Both endpoints of a reference are objects of the heap. */
  predicate EdgeIn(edge: Edge, slots: map<ObjId, int>) {
    edge.referee in slots && (edge.referrer.Some? ==> edge.referrer.value in slots)
  }

  /** The result of an iteration: the heap after it and whether a callback aborted it. */
  datatype Followed = Followed(heap: Heap, aborted: bool)

  /** The slot values of a reference's two ends. */
  function ReferrerTag(h: Heap, edge: Edge): Option<int>
    requires EdgeIn(edge, h.slots)
  {
    if edge.referrer.Some? then Some(h.slots[edge.referrer.value]) else None
  }

  /** One reported reference: the callback runs and its new tag is stored in the referee's slot. */
  function ApplyEdge(h: Heap, pass: RefPass, edge: Edge, stop: bool): (r: Followed)
    requires HeapValid(h) && EdgeIn(edge, h.slots) && (pass == SpreadInfoPass ==> edge.referrer.Some?)
    ensures HeapValid(r.heap) && r.heap.slots.Keys == h.slots.Keys
    ensures r.heap.engine.store.queries == h.engine.store.queries
  {
    var tag := h.slots[edge.referee];
    var st := RefStep(h.engine, pass, edge.kind, ReferrerTag(h, edge), tag, stop);
    RefStepSound(h.engine, pass, edge.kind, ReferrerTag(h, edge), tag, stop);
    SlotUpdate(h.engine.store, st.engine.store, h.slots, edge.referee, st.tag);
    Followed(Heap(st.engine, h.slots[edge.referee := st.tag]), st.visit == VisitAbort)
  }

  /** The references of an iteration are valid for the pass that handles them. */
  predicate EdgesIn(pass: RefPass, edges: seq<Edge>, slots: map<ObjId, int>) {
    forall i :: 0 <= i < |edges| ==>
      EdgeIn(edges[i], slots) && (pass == SpreadInfoPass ==> edges[i].referrer.Some?)
  }

  /** Dropping the first reference and keeping the heap's objects keeps the references valid. */
  lemma EdgesInSuffix(pass: RefPass, edges: seq<Edge>, slots: map<ObjId, int>, slots2: map<ObjId, int>)
    requires EdgesIn(pass, edges, slots) && slots.Keys == slots2.Keys && edges != []
    ensures EdgesIn(pass, edges[1..], slots2)
  {
    forall i | 0 <= i < |edges[1..]|
      ensures EdgeIn(edges[1..][i], slots2) && (pass == SpreadInfoPass ==> edges[1..][i].referrer.Some?)
    {
      assert edges[1..][i] == edges[i + 1];
    }
  }

  /**
   * `FollowReferences` with the callback of `pass`: the references are
   * reported in order, `stops[i]` is `shouldStopIteration` at the i-th, and
   * the iteration ends at the first callback that returns `VISIT_ABORT`.
   */
  function FollowAll(h: Heap, pass: RefPass, edges: seq<Edge>, stops: seq<bool>): (r: Followed)
    requires HeapValid(h) && |stops| == |edges| && EdgesIn(pass, edges, h.slots)
    ensures HeapValid(r.heap) && r.heap.slots.Keys == h.slots.Keys
    ensures r.heap.engine.store.queries == h.engine.store.queries
    decreases |edges|
  {
    if edges == [] then Followed(h, false)
    else
      var f := ApplyEdge(h, pass, edges[0], stops[0]);
      if f.aborted then f else FollowAll(f.heap, pass, edges[1..], stops[1..])
  }

  /** One step of an iteration: the first reference, then the rest unless it aborted. */
  lemma FollowAllFirst(h: Heap, pass: RefPass, edges: seq<Edge>, stops: seq<bool>)
    requires HeapValid(h) && |stops| == |edges| && EdgesIn(pass, edges, h.slots) && edges != []
    ensures var f := ApplyEdge(h, pass, edges[0], stops[0]);
            EdgesIn(pass, edges[1..], f.heap.slots)
            && FollowAll(h, pass, edges, stops) == if f.aborted then f else FollowAll(f.heap, pass, edges[1..], stops[1..])
  {
    EdgesInSuffix(pass, edges, h.slots, ApplyEdge(h, pass, edges[0], stops[0]).heap.slots);
  }

  /** A reference callback aborts exactly on a stop request, and an aborting one changes nothing. */
  lemma ApplyEdgeStop(h: Heap, pass: RefPass, edge: Edge, stop: bool)
    requires HeapValid(h) && EdgeIn(edge, h.slots) && (pass == SpreadInfoPass ==> edge.referrer.Some?)
    ensures ApplyEdge(h, pass, edge, stop).aborted <==> stop
    ensures stop ==> ApplyEdge(h, pass, edge, stop) == Followed(h, true)
  {
    if stop {
      StopAborts(h.engine, pass, edge.kind, ReferrerTag(h, edge), h.slots[edge.referee]);
      assert h.slots[edge.referee := h.slots[edge.referee]] == h.slots;
    }
  }

  /** A request is among the answers exactly when it is the first one or among the rest. */
  lemma TrueInCons(bs: seq<bool>)
    requires bs != []
    ensures (true in bs) <==> bs[0] || true in bs[1..]
  {
    assert bs == [bs[0]] + bs[1..];
  }

  /** An iteration is aborted exactly when a stop request comes during it. */
  lemma {:induction false} FollowAllAborts(h: Heap, pass: RefPass, edges: seq<Edge>, stops: seq<bool>)
    requires HeapValid(h) && |stops| == |edges| && EdgesIn(pass, edges, h.slots)
    ensures FollowAll(h, pass, edges, stops).aborted <==> true in stops
    ensures stops != [] && stops[0] ==> FollowAll(h, pass, edges, stops) == Followed(h, true)
    decreases |edges|
  {
    if edges != [] {
      var f := ApplyEdge(h, pass, edges[0], stops[0]);
      FollowAllFirst(h, pass, edges, stops);
      ApplyEdgeStop(h, pass, edges[0], stops[0]);
      TrueInCons(stops);
      if !stops[0] {
        FollowAllAborts(f.heap, pass, edges[1..], stops[1..]);
      }
    }
  }

  /** One object reported by `IterateThroughHeap`: the object, its class object and its size. */
  datatype HeapObject = HeapObject(id: ObjId, cls: ObjId, size: int)

  /** The heap-object filters the engine uses. */
  datatype HeapFilter = NoFilter | FilterUntagged | FilterClassUntagged

  /** Whether `IterateThroughHeap` with `filter` reports object `o`. */
  predicate Reported(filter: HeapFilter, slots: map<ObjId, int>, o: HeapObject)
    requires o.id in slots && o.cls in slots
  {
    match filter
    case NoFilter => true
    case FilterUntagged => slots[o.id] != NO_TAG
    case FilterClassUntagged => slots[o.cls] != NO_TAG
  }

  predicate ObjectIn(o: HeapObject, slots: map<ObjId, int>) {
    o.id in slots && o.cls in slots
  }

  /** Whether the tag-changing object callbacks can run: `tagObjectOfTaggedClass` never meets a static tag. */
  ghost predicate ObjectPassReady(h: Heap, pass: ObjectPass) {
    pass == TagObjectOfTaggedClassPass ==>
      AllSingle(h.engine.store) && forall o :: o in h.slots ==> !IsStatic(h.slots[o])
  }

  /** One reported object: the callback runs on its slot, reading its class's slot. */
  function ApplyObject(h: Heap, pass: ObjectPass, filter: HeapFilter, o: HeapObject): (r: Heap)
    requires HeapValid(h) && ObjectIn(o, h.slots) && ObjectPassReady(h, pass)
    ensures HeapValid(r) && r.slots.Keys == h.slots.Keys && ObjectPassReady(r, pass)
    ensures r.engine.store.queries == h.engine.store.queries
    ensures !Reported(filter, h.slots, o) ==> r == h
  {
    if !Reported(filter, h.slots, o) then h
    else
      var tag := h.slots[o.id];
      assert Live(h.engine.store, h.slots[o.cls]);
      var st := ObjectStep(h.engine, pass, h.slots[o.cls], tag);
      ObjectStepSound(h.engine, pass, h.slots[o.cls], tag);
      SlotUpdate(h.engine.store, st.engine.store, h.slots, o.id, st.tag);
      var r := Heap(st.engine, h.slots[o.id := st.tag]);
      assert pass == TagObjectOfTaggedClassPass ==> !IsStatic(st.tag);
      r
  }

  /** `IterateThroughHeap` with the callback of `pass`, over the heap's objects in order. */
  function IterateAll(h: Heap, pass: ObjectPass, filter: HeapFilter, objects: seq<HeapObject>): (r: Heap)
    requires HeapValid(h) && ObjectPassReady(h, pass) && forall i :: 0 <= i < |objects| ==> ObjectIn(objects[i], h.slots)
    ensures HeapValid(r) && r.slots.Keys == h.slots.Keys && ObjectPassReady(r, pass)
    ensures r.engine.store.queries == h.engine.store.queries
    decreases |objects|
  {
    if objects == [] then h
    else
      var h2 := ApplyObject(h, pass, filter, objects[0]);
      assert forall i :: 0 <= i < |objects[1..]| ==> ObjectIn(objects[1..][i], h2.slots) by {
        forall i | 0 <= i < |objects[1..]| ensures ObjectIn(objects[1..][i], h2.slots) {
          assert ObjectIn(objects[i + 1], h.slots);
        }
      }
      IterateAll(h2, pass, filter, objects[1..])
  }

  /** One step of the heap iteration: the first object, then the rest. */
  lemma IterateAllFirst(h: Heap, pass: ObjectPass, filter: HeapFilter, objects: seq<HeapObject>)
    requires HeapValid(h) && ObjectPassReady(h, pass) && objects != []
    requires forall i :: 0 <= i < |objects| ==> ObjectIn(objects[i], h.slots)
    ensures var h2 := ApplyObject(h, pass, filter, objects[0]);
            (forall i :: 0 <= i < |objects[1..]| ==> ObjectIn(objects[1..][i], h2.slots))
            && IterateAll(h, pass, filter, objects) == IterateAll(h2, pass, filter, objects[1..])
  {
    var h2 := ApplyObject(h, pass, filter, objects[0]);
    forall i | 0 <= i < |objects[1..]| ensures ObjectIn(objects[1..][i], h2.slots) {
      assert ObjectIn(objects[i + 1], h.slots);
    }
  }

  /**
   * `walkHeapFromObjects`: before each object the deadline is checked
   * (`late[i]`); an object whose tag is recorded as carrying new
   * information is erased from the record and the heap is walked from it
   * with `spreadInfo` (`walks[i]`, with stop answers `stops[i]`).
   */
  function WalkAll(h: Heap, objects: seq<ObjId>, late: seq<bool>, walks: seq<seq<Edge>>, stops: seq<seq<bool>>)
    : (r: (Heap, AgentError))
    requires HeapValid(h) && WalksIn(h, objects, late, walks, stops)
    ensures HeapValid(r.0) && r.0.slots.Keys == h.slots.Keys
    ensures r.0.engine.store.queries == h.engine.store.queries
    ensures r.1 == NoError || r.1 == Timeout
    decreases |objects|
  {
    if objects == [] then (h, NoError)
    else if late[0] then (h, Timeout)
    else
      var h1 := WalkOne(h, objects[0], walks[0], stops[0]);
      WalkAll(h1, objects[1..], late[1..], walks[1..], stops[1..])
  }

  /**
   * One object of `walkHeapFromObjects` once the deadline check passed: only
   * an object whose tag carries new information starts a `spreadInfo` walk,
   * and its tag leaves the record first.
   */
  function WalkOne(h: Heap, o: ObjId, walk: seq<Edge>, stop: seq<bool>): (r: Heap)
    requires HeapValid(h) && o in h.slots && |stop| == |walk| && EdgesIn(SpreadInfoPass, walk, h.slots)
    ensures HeapValid(r) && r.slots.Keys == h.slots.Keys
    ensures r.engine.store.queries == h.engine.store.queries
    ensures h.slots[o] !in h.engine.newInfo ==> r == h
  {
    var tag := h.slots[o];
    if tag in h.engine.newInfo then
      var h1 := h.(engine := h.engine.(newInfo := h.engine.newInfo - {tag}));
      FollowAll(h1, SpreadInfoPass, walk, stop).heap
    else
      h
  }

  /** The inputs of a `walkHeapFromObjects` call fit together and name objects of the heap. */
  predicate WalksIn(h: Heap, objects: seq<ObjId>, late: seq<bool>, walks: seq<seq<Edge>>, stops: seq<seq<bool>>) {
    |late| == |objects| && |walks| == |objects| && |stops| == |objects|
    && (forall i :: 0 <= i < |objects| ==> objects[i] in h.slots)
    && (forall i :: 0 <= i < |objects| ==> |stops[i]| == |walks[i]| && EdgesIn(SpreadInfoPass, walks[i], h.slots))
  }

  /** Walk inputs about a heap stay valid while the heap keeps its objects. */
  lemma WalksKept(h: Heap, h2: Heap, objects: seq<ObjId>, late: seq<bool>, walks: seq<seq<Edge>>, stops: seq<seq<bool>>)
    requires WalksIn(h, objects, late, walks, stops) && h.slots.Keys == h2.slots.Keys
    ensures WalksIn(h2, objects, late, walks, stops)
  {
    assert forall e :: EdgeIn(e, h.slots) == EdgeIn(e, h2.slots);
  }

  /** What is left of a walk's inputs after its first object, on a heap that kept its objects. */
  lemma WalksRest(h: Heap, h2: Heap, objects: seq<ObjId>, late: seq<bool>, walks: seq<seq<Edge>>, stops: seq<seq<bool>>)
    requires WalksIn(h, objects, late, walks, stops) && objects != [] && h.slots.Keys == h2.slots.Keys
    ensures WalksIn(h2, objects[1..], late[1..], walks[1..], stops[1..])
  {
    WalksKept(h, h2, objects, late, walks, stops);
    assert forall i :: 0 <= i < |objects[1..]| ==> objects[1..][i] == objects[i + 1] && walks[1..][i] == walks[i + 1];
  }

  /** The walk times out exactly when the deadline has passed before some object. */
  lemma {:induction false} WalkAllTimesOut(h: Heap, objects: seq<ObjId>, late: seq<bool>,
                                           walks: seq<seq<Edge>>, stops: seq<seq<bool>>)
    requires HeapValid(h) && WalksIn(h, objects, late, walks, stops)
    ensures WalkAll(h, objects, late, walks, stops).1 == Timeout <==> true in late
    decreases |objects|
  {
    if objects != [] {
      TrueInCons(late);
      if !late[0] {
        WalkAllTimesOut(WalkOne(h, objects[0], walks[0], stops[0]), objects[1..], late[1..], walks[1..], stops[1..]);
      }
    }
  }

  /** Once a stop is requested, every reference callback aborts and changes nothing. */
  lemma StopAborts(e: Engine, pass: RefPass, kind: int, rer: Option<int>, tag: int)
    requires Live(e.store, tag) && (rer.Some? ==> Live(e.store, rer.value))
    requires pass == SpreadInfoPass ==> rer.Some?
    ensures RefStep(e, pass, kind, rer, tag, true) == Step(e, VisitAbort, tag)
  {
  }

  /** JNI local and global references never change a tag or the engine. */
  lemma JniReferencesIgnored(e: Engine, pass: RefPass, kind: int, rer: Option<int>, tag: int)
    requires Live(e.store, tag) && (rer.Some? ==> Live(e.store, rer.value))
    requires pass == SpreadInfoPass ==> rer.Some?
    requires IsJniReference(kind)
    ensures RefStep(e, pass, kind, rer, tag, false) == Step(e, VisitObjects, tag)
  {
  }

  /**
   * A reference from a heap root or an `EmptyTag` referrer: an untagged
   * referee becomes `EmptyTag`; a real referee becomes reachable from
   * outside every query; in the new-info pass a real referee already
   * referred to is released and replaced by `TagWithNewInfo`.
   */
  lemma UntaggedReferrer(e: Engine, pass: RefPass, kind: int, rer: Option<int>, tag: int)
    requires StoreValid(e.store) && Live(e.store, tag) && (rer.Some? ==> Live(e.store, rer.value))
    requires pass != SpreadInfoPass && FromUntagged(rer) && !IsJniReference(kind)
    requires pass == GetTagsWithNewInfoPass ==> tag != TAG_WITH_NEW_INFO
    ensures var st := RefStep(e, pass, kind, rer, tag, false);
            st.visit == VisitObjects && st.engine.newInfo == e.newInfo
            && (tag == NO_TAG ==> st.tag == EMPTY_TAG && st.engine == e)
            && (tag == EMPTY_TAG ==> st.tag == EMPTY_TAG && st.engine == e)
            && (tag != NO_TAG && tag != EMPTY_TAG ==>
                  if pass == GetTagsWithNewInfoPass && e.store.tags[tag].alreadyReferred then
                    st.tag == TAG_WITH_NEW_INFO && st.engine.store == AfterUnref(e.store, tag)
                  else
                    st.tag == tag && tag in st.engine.store.tags
                    && |st.engine.store.tags[tag].entries| == |e.store.tags[tag].entries|
                    && forall i :: 0 <= i < |e.store.tags[tag].entries| ==>
                         st.engine.store.tags[tag].entries[i].index == e.store.tags[tag].entries[i].index
                         && IsReachableOutside(st.engine.store.tags[tag].entries[i].state)
                         && IsAlreadyVisited(st.engine.store.tags[tag].entries[i].state))
  {
  }

  /** References from `TagWithNewInfo`, untagged or class-tagged referrers change nothing. */
  lemma ReferrerWithoutInfo(e: Engine, pass: RefPass, kind: int, r: int, tag: int)
    requires StoreValid(e.store) && Live(e.store, tag) && Live(e.store, r) && pass != SpreadInfoPass
    requires r == TAG_WITH_NEW_INFO || r == NO_TAG || (r != EMPTY_TAG && e.store.tags[r].id > 0)
    ensures RefStep(e, pass, kind, Some(r), tag, false).engine == e
    ensures RefStep(e, pass, kind, Some(r), tag, false).tag == tag
  {
  }

  /** The referrer carries query information the callbacks pass on. */
  predicate Informed(s: Store, rer: Option<int>)
    requires rer.Some? ==> Live(s, rer.value)
  {
    rer.Some? && rer.value != NO_TAG && rer.value != EMPTY_TAG && rer.value != TAG_WITH_NEW_INFO
    && s.tags[rer.value].id == 0
  }

  /** Every query index of a's entries is one of b's. */
  predicate IndicesCovered(a: TagRec, b: TagRec) {
    Indices(a.entries) <= Indices(b.entries)
  }

  /** Sharing gives the referee every query index of the referrer. */
  lemma ShareIndices(s: Store, r: int)
    requires StoreValid(s) && r in s.tags
    ensures AfterShare(s, r).tag in AfterShare(s, r).store.tags
    ensures IndicesCovered(s.tags[r], AfterShare(s, r).store.tags[AfterShare(s, r).tag])
  {
  }

  /** Merging gives the referee every query index of the referrer. */
  lemma MergeIndices(s: Store, ree: int, rer: int)
    requires StoreValid(s) && ree in s.tags && rer in s.tags
    ensures AfterMerge(s, ree, rer).tag in AfterMerge(s, ree, rer).store.tags
    ensures var m := AfterMerge(s, ree, rer);
            m.store.tags[m.tag].entries == Merged(s.tags[ree].entries, s.tags[rer].entries, AlreadyVisited(s.tags[ree].entries))
            && IndicesCovered(s.tags[rer], m.store.tags[m.tag]) && IndicesCovered(s.tags[ree], m.store.tags[m.tag])
            && !m.store.tags[m.tag].isStartTag == !s.tags[ree].isStartTag
  {
    assert s.next !in s.tags;
    MergedSorted(s.tags[ree].entries, s.tags[rer].entries, AlreadyVisited(s.tags[ree].entries));
  }

  /** A referrer covered by the referee adds no query index to it. */
  lemma CoveredIndices(a: TagRec, b: TagRec)
    requires Covered(a.entries, b.entries)
    ensures IndicesCovered(a, b)
  {
    forall x | x in Indices(a.entries) ensures x in Indices(b.entries) {
      var t :| t in a.entries && t.index == x;
      assert t in b.entries;
    }
  }

  /**
   * `visitReference` passes the referrer's information on: unless the
   * referee is a class tag, its new tag knows every query the referrer
   * knows. A `TagWithNewInfo` referee takes the shared tag and records it;
   * a merged referee's old tag leaves the record and the merged one enters.
   */
  lemma VisitReferenceSpreads(e: Engine, kind: int, rer: Option<int>, tag: int)
    requires StoreValid(e.store) && Live(e.store, tag) && (rer.Some? ==> Live(e.store, rer.value))
    requires Informed(e.store, rer) && !IsJniReference(kind)
    ensures var st := VisitReferenceStep(e, kind, rer, tag, false);
            Live(st.engine.store, st.tag)
            && (st.tag != NO_TAG && (tag == NO_TAG || e.store.tags[tag].id == 0) ==>
                  IndicesCovered(e.store.tags[rer.value], st.engine.store.tags[st.tag]))
            && (tag == TAG_WITH_NEW_INFO ==> st.engine.newInfo == e.newInfo + {st.tag})
            && (tag != NO_TAG && tag != TAG_WITH_NEW_INFO && st.tag != tag ==>
                  st.engine.newInfo == e.newInfo - {tag} + {st.tag})
  {
    var st := VisitReferenceStep(e, kind, rer, tag, false);
    var r := rer.value;
    VisitReferenceSound(e, kind, rer, tag, false);
    if tag == NO_TAG || tag == TAG_WITH_NEW_INFO {
      ShareIndices(e.store, r);
    } else if ValidForMerge(e.store, tag, r) {
      MergeIndices(e.store, tag, r);
    } else if tag != r && e.store.tags[tag].id == 0 {
      CoveredIndices(e.store.tags[r], e.store.tags[tag]);
    }
  }

  /**
   * The new-info pass: the referrer is marked as already referred to; an
   * untagged referee shares the referrer's tag; a mergeable referee already
   * referred to is released and becomes `TagWithNewInfo`, another one is
   * merged with the referrer.
   */
  lemma NewInfoPassMarks(e: Engine, kind: int, rer: Option<int>, tag: int)
    requires StoreValid(e.store) && Live(e.store, tag) && (rer.Some? ==> Live(e.store, rer.value))
    requires Informed(e.store, rer) && !IsJniReference(kind) && tag != TAG_WITH_NEW_INFO
    ensures var st := GetTagsWithNewInfoStep(e, kind, rer, tag, false);
            rer.value in st.engine.store.tags && st.engine.store.tags[rer.value].alreadyReferred
            && st.engine.newInfo == e.newInfo && st.visit == VisitObjects
            && (tag == NO_TAG ==> st.tag == AfterShare(e.store, rer.value).tag)
            && (tag != NO_TAG && ValidForMerge(e.store, tag, rer.value) ==>
                  if e.store.tags[tag].alreadyReferred then st.tag == TAG_WITH_NEW_INFO
                  else st.tag == AfterMerge(e.store, tag, rer.value).tag)
            && (tag != NO_TAG && !ValidForMerge(e.store, tag, rer.value) ==> st.tag == tag)
  {
  }

  /**
   * `spreadInfo` between two tagged objects: the referee leaves the
   * new-information record and its new tag knows every query the referrer
   * knows.
   */
  lemma SpreadInfoSpreads(e: Engine, kind: int, rer: int, tag: int)
    requires StoreValid(e.store) && Live(e.store, tag) && Live(e.store, rer)
    requires !IsJniReference(kind) && tag != NO_TAG && rer != NO_TAG
    ensures var st := SpreadInfoStep(e, kind, rer, tag, false);
            st.tag in st.engine.store.tags && IndicesCovered(e.store.tags[rer], st.engine.store.tags[st.tag])
            && st.engine.newInfo == e.newInfo - {tag}
  {
    SpreadInfoSound(e, kind, rer, tag, false);
    if rer != tag && !Covered(e.store.tags[rer].entries, e.store.tags[tag].entries) {
      MergeIndices(e.store, tag, rer);
    } else if rer != tag {
      CoveredIndices(e.store.tags[rer], e.store.tags[tag]);
    }
  }

  /** `clearTag` leaves every object untagged, releasing one reference to its tag. */
  lemma ClearTagReleases(e: Engine, tag: int)
    requires StoreValid(e.store) && Live(e.store, tag) && tag >= FIRST_HEAP_TAG
    ensures var st := ClearTagStep(e, tag);
            st.tag == NO_TAG && RefCount(st.engine.store, tag) == RefCount(e.store, tag) - 1
            && (RefCount(st.engine.store, tag) == 0 <==> st.engine.store.balance == e.store.balance - 1)
  {
  }

  /**
   * `retagStartObjects`: an instance of listed class `i` (class id i+1)
   * that is marked `TagWithNewInfo` gets a fresh start tag holding the one
   * entry (i, start and in subtree), and the tag is recorded as carrying
   * new information.
   */
  lemma RetagStartObjectsTags(e: Engine, classTag: int, tag: int)
    requires StoreValid(e.store) && Live(e.store, classTag)
    requires classTag != NO_TAG && e.store.tags[classTag].id > 0 && tag == TAG_WITH_NEW_INFO
    ensures var st := RetagStartObjectsStep(e, classTag, tag);
            st.tag in st.engine.store.tags && st.tag !in e.store.tags
            && st.engine.store.tags[st.tag].entries == [TagInfo(e.store.tags[classTag].id - 1, ClassStartState)]
            && st.engine.store.tags[st.tag].isStartTag
            && IsStartObject(ClassStartState) && IsInSubtree(ClassStartState)
            && !IsReachableOutside(ClassStartState) && !IsAlreadyVisited(ClassStartState)
            && st.engine.newInfo == e.newInfo + {st.tag}
  {
    assert e.store.next !in e.store.tags;
  }

  /** Other objects are left alone by `retagStartObjects`. */
  lemma RetagStartObjectsSkips(e: Engine, classTag: int, tag: int)
    requires StoreValid(e.store) && Live(e.store, classTag)
    requires classTag == NO_TAG || e.store.tags[classTag].id == 0 || tag != TAG_WITH_NEW_INFO
    ensures RetagStartObjectsStep(e, classTag, tag) == Step(e, IterationContinue, tag)
  {
  }

  /**
   * `tagObjectOfTaggedClass`: an instance of listed class `i` gets a
   * start entry for query `i`; an instance that is itself a listed class
   * keeps its class id, and its old tag is destroyed.
   */
  lemma TagObjectOfTaggedClassTags(e: Engine, classTag: int, tag: int)
    requires StoreValid(e.store) && Live(e.store, classTag) && Live(e.store, tag)
    requires tag == NO_TAG || tag >= FIRST_HEAP_TAG
    requires classTag != NO_TAG && e.store.tags[classTag].id > 0
    ensures var st := TagObjectOfTaggedClassStep(e, classTag, tag);
            st.tag in st.engine.store.tags && st.tag !in e.store.tags
            && st.engine.store.tags[st.tag].entries == [TagInfo(e.store.tags[classTag].id - 1, ClassStartState)]
            && st.engine.store.tags[st.tag].isStartTag
            && st.engine.store.tags[st.tag].id == (if tag == NO_TAG then 0 else e.store.tags[tag].id)
            && (tag != NO_TAG ==> tag !in st.engine.store.tags)
            && st.engine.newInfo == e.newInfo
  {
    assert e.store.next !in e.store.tags;
  }

  /**
   * The callbacks' state, updated in place: the live tags, the global
   * `tagsWithNewInfo` set, and the JVM's tag slot of every heap object.
   */
  class Callbacks {
    const tags: TagStore
    var tagsWithNewInfo: set<int>
    var slots: map<ObjId, int>

    ghost function State(): Engine
      reads this, tags
    {
      Engine(tags.State(), tagsWithNewInfo)
    }

    ghost function HeapState(): Heap
      reads this, tags
    {
      Heap(State(), slots)
    }

    ghost predicate Valid()
      reads this, tags
    {
      HeapValid(HeapState())
    }

    /** A fresh store for `queries` queries, an empty record and an untagged heap of `objects`. */
    constructor(queries: nat, objects: set<ObjId>)
      requires queries <= MAX_SIZE
      ensures Valid() && fresh(tags)
      ensures HeapState() == Heap(Engine(InitialStore(queries), {}), map o | o in objects :: NO_TAG)
    {
      tags := new TagStore(queries);
      tagsWithNewInfo := {};
      slots := map o | o in objects :: NO_TAG;
      new;
      InitialSlotsValid(queries);
      forall a | a >= FIRST_HEAP_TAG ensures RefCount(tags.State(), a) >= |Holders(slots, a)| {
        assert Holders(slots, a) == {};
      }
    }

    /** `tagsAreValidForMerge`, through the `shouldMerge` loop. */
    method TagsAreValidForMerge(ree: int, rer: int) returns (b: bool)
      requires tags.Valid() && ree in tags.tags && rer in tags.tags
      ensures b == ValidForMerge(tags.State(), ree, rer)
    {
      if ree == rer || tags.tags[ree].id != 0 {
        return false;
      }
      b := ShouldMerge(tags.tags[ree].entries, tags.tags[rer].entries);
    }

    method HandleReferrersWithNoInfo(rer: Option<int>, tag: int, setNewInfo: bool) returns (handled: bool, newTag: int)
      requires tags.Valid() && Live(tags.State(), tag) && (rer.Some? ==> Live(tags.State(), rer.value))
      modifies tags
      ensures tags.Valid()
      ensures var h := HandleNoInfo(old(tags.State()), rer, tag, setNewInfo);
              handled == h.Some?
              && (h.Some? ==> tags.State() == h.value.store && newTag == h.value.tag)
              && (h.None? ==> tags.State() == old(tags.State()))
    {
      if rer.None? || rer.value == EMPTY_TAG {
        newTag := tag;
        if tag == NO_TAG {
          newTag := EMPTY_TAG;
        } else if tag != EMPTY_TAG {
          if setNewInfo && tags.tags[tag].alreadyReferred {
            tags.Unref(tag);
            newTag := TAG_WITH_NEW_INFO;
          } else {
            tags.VisitFromUntaggedReferrer(tag);
          }
        }
        return true, newTag;
      } else if rer.value == TAG_WITH_NEW_INFO || rer.value == NO_TAG || tags.tags[rer.value].id > 0 {
        return true, tag;
      }
      return false, tag;
    }

    method GetTagsWithNewInfo(kind: int, rer: Option<int>, tag: int, stop: bool) returns (v: Visit, newTag: int)
      requires tags.Valid() && Live(tags.State(), tag) && (rer.Some? ==> Live(tags.State(), rer.value))
      modifies tags
      ensures tags.Valid() && unchanged(this)
      ensures var st := GetTagsWithNewInfoStep(old(State()), kind, rer, tag, stop);
              State() == st.engine && v == st.visit && newTag == st.tag
    {
      if stop {
        return VisitAbort, tag;
      }
      if IsJniReference(kind) || tag == TAG_WITH_NEW_INFO {
        return VisitObjects, tag;
      }
      var handled, t := HandleReferrersWithNoInfo(rer, tag, true);
      if handled {
        return VisitObjects, t;
      }
      var r := rer.value;
      ghost var s := tags.State();
      newTag := tag;
      if tag == NO_TAG {
        newTag := tags.Share(r);
      } else {
        var valid := TagsAreValidForMerge(tag, r);
        if valid {
          if tags.tags[tag].alreadyReferred {
            tags.Unref(tag);
            newTag := TAG_WITH_NEW_INFO;
          } else {
            newTag := tags.Merge(tag, r);
          }
        }
      }
      assert tags.State() == ReceiveNewInfo(s, tag, r).store;
      tags.MarkReferred(r);
      v := VisitObjects;
    }

    method VisitReference(kind: int, rer: Option<int>, tag: int, stop: bool) returns (v: Visit, newTag: int)
      requires tags.Valid() && Live(tags.State(), tag) && (rer.Some? ==> Live(tags.State(), rer.value))
      modifies this, tags
      ensures tags.Valid() && slots == old(slots)
      ensures var st := VisitReferenceStep(old(State()), kind, rer, tag, stop);
              State() == st.engine && v == st.visit && newTag == st.tag
    {
      if stop {
        return VisitAbort, tag;
      }
      if IsJniReference(kind) {
        return VisitObjects, tag;
      }
      var handled, t := HandleReferrersWithNoInfo(rer, tag, false);
      if handled {
        return VisitObjects, t;
      }
      var r := rer.value;
      newTag := tag;
      v := VisitObjects;
      if tag == NO_TAG {
        newTag := tags.Share(r);
      } else if tag == TAG_WITH_NEW_INFO {
        newTag := tags.Share(r);
        tagsWithNewInfo := tagsWithNewInfo + {newTag};
      } else {
        var valid := TagsAreValidForMerge(tag, r);
        if valid {
          tagsWithNewInfo := tagsWithNewInfo - {tag};
          newTag := tags.Merge(tag, r);
          tagsWithNewInfo := tagsWithNewInfo + {newTag};
        }
      }
    }

    method SpreadInfo(kind: int, rer: int, tag: int, stop: bool) returns (v: Visit, newTag: int)
      requires tags.Valid() && Live(tags.State(), tag) && Live(tags.State(), rer)
      modifies this, tags
      ensures tags.Valid() && slots == old(slots)
      ensures var st := SpreadInfoStep(old(State()), kind, rer, tag, stop);
              State() == st.engine && v == st.visit && newTag == st.tag
    {
      if stop {
        return VisitAbort, tag;
      }
      newTag := tag;
      v := VisitObjects;
      if !IsJniReference(kind) && tag != NO_TAG && rer != NO_TAG {
        if tag in tagsWithNewInfo {
          tagsWithNewInfo := tagsWithNewInfo - {tag};
        }
        if rer != tag {
          var merge := ShouldMerge(tags.tags[tag].entries, tags.tags[rer].entries);
          if merge {
            newTag := tags.Merge(tag, rer);
          }
        }
      }
    }

    method ClearTag(tag: int) returns (newTag: int)
      requires tags.Valid() && Live(tags.State(), tag)
      modifies tags
      ensures tags.Valid() && unchanged(this)
      ensures var st := ClearTagStep(old(State()), tag); State() == st.engine && newTag == st.tag
    {
      if tag != NO_TAG {
        tags.Unref(tag);
      }
      newTag := NO_TAG;
    }

    method RetagStartObjects(classTag: int, tag: int) returns (newTag: int)
      requires tags.Valid() && Live(tags.State(), classTag)
      modifies this, tags
      ensures tags.Valid() && slots == old(slots)
      ensures var st := RetagStartObjectsStep(old(State()), classTag, tag); State() == st.engine && newTag == st.tag
    {
      newTag := tag;
      if classTag != NO_TAG && tags.tags[classTag].id > 0 && tag == TAG_WITH_NEW_INFO {
        CreateValid(tags.State(), tags.tags[classTag].id - 1, ClassStartState, 0);
        newTag := tags.Create(tags.tags[classTag].id - 1, ClassStartState);
        tagsWithNewInfo := tagsWithNewInfo + {newTag};
      }
    }

    method TagObjectOfTaggedClass(classTag: int, tag: int) returns (newTag: int)
      requires tags.Valid() && Live(tags.State(), classTag) && Live(tags.State(), tag)
      requires tag == NO_TAG || tag >= FIRST_HEAP_TAG
      modifies tags
      ensures tags.Valid() && unchanged(this)
      ensures var st := TagObjectOfTaggedClassStep(old(State()), classTag, tag); State() == st.engine && newTag == st.tag
    {
      newTag := tag;
      if classTag != NO_TAG && tags.tags[classTag].id > 0 {
        var index := tags.tags[classTag].id - 1;
        if tag == NO_TAG {
          newTag := tags.Create(index, ClassStartState);
        } else {
          newTag := tags.CreateClassStartTag(index, ClassStartState, tags.tags[tag].id);
          tags.Delete(tag);
        }
      }
    }

    /** `visitObject`: the object's size is added to `result[index]` for every retained entry of its tag. */
    method VisitObject(result: array<int>, tag: int, size: int)
      requires tags.Valid() && Live(tags.State(), tag) && tags.queries <= result.Length
      modifies result
      ensures tag == NO_TAG ==> result[..] == old(result[..])
      ensures tag != NO_TAG ==> result[..] == AddRetained(old(result[..]), tags.tags[tag].entries, size)
      ensures forall q :: 0 <= q < result.Length ==>
                result[q] == old(result[q]) + if tag == NO_TAG then 0 else Contribution(tags.tags[tag].entries, q, size)
    {
      if tag == NO_TAG {
        return;
      }
      var es := tags.tags[tag].entries;
      assert forall e :: e in es ==> e.index < result.Length;
      AddRetainedSum(result[..], es, size);
      AddRetainedInPlace(result, es, size);
    }

    /** One reference reported to the callback of `pass`; see `ApplyEdge`. */
    method Report(pass: RefPass, e: Edge, stop: bool) returns (aborted: bool)
      requires Valid() && EdgeIn(e, slots) && (pass == SpreadInfoPass ==> e.referrer.Some?)
      modifies this, tags
      ensures Followed(HeapState(), aborted) == ApplyEdge(old(HeapState()), pass, e, stop) && Valid()
    {
      var tag := slots[e.referee];
      var rer := if e.referrer.Some? then Some(slots[e.referrer.value]) else None;
      assert Live(tags.State(), tag);
      assert rer.Some? ==> Live(tags.State(), rer.value);
      var v, t;
      match pass {
        case GetTagsWithNewInfoPass => v, t := GetTagsWithNewInfo(e.kind, rer, tag, stop);
        case VisitReferencePass => v, t := VisitReference(e.kind, rer, tag, stop);
        case SpreadInfoPass => v, t := SpreadInfo(e.kind, rer.value, tag, stop);
      }
      slots := slots[e.referee := t];
      aborted := v == VisitAbort;
    }

    /** One object offered to the callback of `pass`; see `ApplyObject`. */
    method Offer(pass: ObjectPass, filter: HeapFilter, o: HeapObject)
      requires Valid() && ObjectPassReady(HeapState(), pass) && ObjectIn(o, slots)
      modifies this, tags
      ensures HeapState() == ApplyObject(old(HeapState()), pass, filter, o) && Valid()
    {
      var reported := match filter
        case NoFilter => true
        case FilterUntagged => slots[o.id] != NO_TAG
        case FilterClassUntagged => slots[o.cls] != NO_TAG;
      if reported {
        var tag := slots[o.id];
        var classTag := slots[o.cls];
        assert Live(tags.State(), tag) && Live(tags.State(), classTag);
        var t;
        match pass {
          case ClearTagPass => t := ClearTag(tag);
          case RetagStartObjectsPass => t := RetagStartObjects(classTag, tag);
          case TagObjectOfTaggedClassPass => t := TagObjectOfTaggedClass(classTag, tag);
        }
        slots := slots[o.id := t];
      }
    }

    /** `FollowReferences` with the callback of `pass`; see `FollowAll`. */
    method FollowReferences(pass: RefPass, edges: seq<Edge>, stops: seq<bool>) returns (aborted: bool)
      requires Valid() && |stops| == |edges| && EdgesIn(pass, edges, slots)
      modifies this, tags
      ensures Valid() && Followed(HeapState(), aborted) == FollowAll(old(HeapState()), pass, edges, stops)
    {
      var i := 0;
      while i < |edges|
        invariant 0 <= i <= |edges| && Valid() && slots.Keys == old(slots).Keys
        invariant EdgesIn(pass, edges[i..], slots)
        invariant FollowAll(old(HeapState()), pass, edges, stops) == FollowAll(HeapState(), pass, edges[i..], stops[i..])
      {
        assert edges[i..][1..] == edges[i + 1..] && stops[i..][1..] == stops[i + 1..];
        FollowAllFirst(HeapState(), pass, edges[i..], stops[i..]);
        aborted := Report(pass, edges[i], stops[i]);
        if aborted {
          return;
        }
        i := i + 1;
      }
      return false;
    }

    /** `IterateThroughHeap` with the callback of `pass`; see `IterateAll`. */
    method IterateThroughHeap(pass: ObjectPass, filter: HeapFilter, objects: seq<HeapObject>)
      requires Valid() && ObjectPassReady(HeapState(), pass)
      requires forall i :: 0 <= i < |objects| ==> ObjectIn(objects[i], slots)
      modifies this, tags
      ensures Valid() && HeapState() == IterateAll(old(HeapState()), pass, filter, objects)
    {
      var i := 0;
      while i < |objects|
        invariant 0 <= i <= |objects| && Valid() && ObjectPassReady(HeapState(), pass)
        invariant forall k :: 0 <= k < |objects[i..]| ==> ObjectIn(objects[i..][k], slots)
        invariant IterateAll(old(HeapState()), pass, filter, objects) == IterateAll(HeapState(), pass, filter, objects[i..])
      {
        assert objects[i..][1..] == objects[i + 1..];
        IterateAllFirst(HeapState(), pass, filter, objects[i..]);
        Offer(pass, filter, objects[i]);
        i := i + 1;
      }
    }

    /** The body of `walkHeapFromObjects` for one object; see `WalkOne`. */
    method WalkFromObject(o: ObjId, walk: seq<Edge>, stop: seq<bool>)
      requires Valid() && o in slots && |stop| == |walk| && EdgesIn(SpreadInfoPass, walk, slots)
      modifies this, tags
      ensures Valid() && HeapState() == WalkOne(old(HeapState()), o, walk, stop)
    {
      var tag := slots[o];
      if tag in tagsWithNewInfo {
        tagsWithNewInfo := tagsWithNewInfo - {tag};
        var _ := FollowReferences(SpreadInfoPass, walk, stop);
      }
    }

    /** `walkHeapFromObjects`; see `WalkAll`. */
    method WalkHeapFromObjects(objects: seq<ObjId>, late: seq<bool>, walks: seq<seq<Edge>>, stops: seq<seq<bool>>)
      returns (err: AgentError)
      requires Valid() && WalksIn(HeapState(), objects, late, walks, stops)
      modifies this, tags
      ensures Valid() && (HeapState(), err) == WalkAll(old(HeapState()), objects, late, walks, stops)
    {
      var i := 0;
      while i < |objects|
        invariant 0 <= i <= |objects| && Valid() && slots.Keys == old(slots).Keys
        invariant WalksIn(HeapState(), objects[i..], late[i..], walks[i..], stops[i..])
        invariant WalkAll(old(HeapState()), objects, late, walks, stops)
                  == WalkAll(HeapState(), objects[i..], late[i..], walks[i..], stops[i..])
      {
        assert objects[i..][1..] == objects[i + 1..] && late[i..][1..] == late[i + 1..];
        assert walks[i..][1..] == walks[i + 1..] && stops[i..][1..] == stops[i + 1..];
        if late[i] {
          return Timeout;
        }
        ghost var h := HeapState();
        WalkFromObject(objects[i], walks[i], stops[i]);
        WalksRest(h, HeapState(), objects[i..], late[i..], walks[i..], stops[i..]);
        assert WalkAll(h, objects[i..], late[i..], walks[i..], stops[i..])
            == WalkAll(HeapState(), objects[i + 1..], late[i + 1..], walks[i + 1..], stops[i + 1..]);
        i := i + 1;
      }
      return NoError;
    }
  }
}
