/**
 * Retained sizes, and shallow with retained sizes, of the instances of a
 * list of classes: the classes' instances become the start objects of one
 * query per class, the heap is tagged, and one more heap iteration totals
 * the sizes of what each query retains.
 */
module RetainedSizeByClasses {
  import opened Jvmti
  import opened SizesState
  import opened TagInfoArrays
  import opened SizesTags
  import opened SizesCallbacks
  import opened SizesPhases

  /** The entries of the tag in object `o`'s slot; none when it is untagged. */
  function EntriesOf(h: Heap, o: HeapObject): seq<TagInfo>
    requires o.id in h.slots
  {
    var t := h.slots[o.id];
    if t != NO_TAG && t in h.engine.store.tags then h.engine.store.tags[t].entries else []
  }

  /** Every entry of every listed object names a query below `n`, and the entries are sorted. */
  lemma EntriesBounded(h: Heap, o: HeapObject, n: nat)
    requires HeapValid(h) && o.id in h.slots && h.engine.store.queries <= n
    ensures Sorted(EntriesOf(h, o)) && forall e :: e in EntriesOf(h, o) ==> e.index < n
  {
    var t := h.slots[o.id];
    if t != NO_TAG && t in h.engine.store.tags {
      assert WellFormed(h.engine.store.tags[t], h.engine.store.queries);
    }
  }

  /** A zero-initialised result with one slot per class. */
  function Zeros(n: nat): (r: seq<int>)
    ensures |r| == n && forall q :: 0 <= q < n ==> r[q] == 0
  {
    seq(n, _ => 0)
  }

  /**
   * The heap iteration with `JVMTI_HEAP_FILTER_UNTAGGED` and `visitObject`:
   * every tagged object adds its size to the slot of every query that
   * retains it. The iteration changes no tag.
   */
  function RetainedSizes(acc: seq<int>, h: Heap, objects: seq<HeapObject>): (r: seq<int>)
    requires HeapValid(h) && h.engine.store.queries <= |acc|
    requires forall i :: 0 <= i < |objects| ==> ObjectIn(objects[i], h.slots)
    ensures |r| == |acc|
    decreases |objects|
  {
    if objects == [] then acc
    else
      var o := objects[0];
      assert ObjectIn(o, h.slots);
      EntriesBounded(h, o, |acc|);
      var acc2 := if h.slots[o.id] == NO_TAG then acc else AddRetained(acc, EntriesOf(h, o), o.size);
      RetainedSizes(acc2, h, objects[1..])
  }

  /** Query `q`'s retained size over `objects`: the sizes of the objects whose state for `q` is retained. */
  function Total(h: Heap, objects: seq<HeapObject>, q: int): int
    requires forall i :: 0 <= i < |objects| ==> ObjectIn(objects[i], h.slots)
    decreases |objects|
  {
    if objects == [] then 0
    else
      assert ObjectIn(objects[0], h.slots);
      Contribution(EntriesOf(h, objects[0]), q, objects[0].size) + Total(h, objects[1..], q)
  }

  /** The iteration adds to every query exactly its retained size. */
  lemma {:induction false} RetainedSizesTotal(acc: seq<int>, h: Heap, objects: seq<HeapObject>)
    requires HeapValid(h) && h.engine.store.queries <= |acc|
    requires forall i :: 0 <= i < |objects| ==> ObjectIn(objects[i], h.slots)
    ensures forall q :: 0 <= q < |acc| ==> RetainedSizes(acc, h, objects)[q] == acc[q] + Total(h, objects, q)
    decreases |objects|
  {
    if objects != [] {
      var o := objects[0];
      assert ObjectIn(o, h.slots);
      EntriesBounded(h, o, |acc|);
      var acc2 := if h.slots[o.id] == NO_TAG then acc else AddRetained(acc, EntriesOf(h, o), o.size);
      if h.slots[o.id] != NO_TAG {
        AddRetainedSum(acc, EntriesOf(h, o), o.size);
      }
      RetainedSizesTotal(acc2, h, objects[1..]);
    }
  }

  /** How much an object of size `size` with entries `es` adds to query `q`'s shallow size. */
  function ShallowContribution(es: seq<TagInfo>, q: int, size: int): int {
    match Find(es, q)
    case Some(st) => if IsStartObject(st) then size else 0
    case None => 0
  }

  /** The shallow half of `visitObjectForShallowAndRetainedSize`: `size` added for every start entry. */
  function AddStart(acc: seq<int>, es: seq<TagInfo>, size: int): (r: seq<int>)
    requires forall e :: e in es ==> e.index < |acc|
    ensures |r| == |acc|
    decreases |es|
  {
    if es == [] then acc
    else
      var acc2 := if IsStartObject(es[0].state) then acc[es[0].index := acc[es[0].index] + size] else acc;
      AddStart(acc2, es[1..], size)
  }

  /** On sorted entries every query gains the size exactly when the object is one of its start objects. */
  lemma AddStartSum(acc: seq<int>, es: seq<TagInfo>, size: int)
    requires Sorted(es) && forall e :: e in es ==> e.index < |acc|
    ensures forall q :: 0 <= q < |acc| ==> AddStart(acc, es, size)[q] == acc[q] + ShallowContribution(es, q, size)
  {
    forall q | 0 <= q < |acc| ensures AddStart(acc, es, size)[q] == acc[q] + ShallowContribution(es, q, size) {
      AddStartAt(acc, es, size, q);
    }
  }

  /** The same, for one query `q`. */
  lemma {:induction false} AddStartAt(acc: seq<int>, es: seq<TagInfo>, size: int, q: int)
    requires Sorted(es) && (forall e :: e in es ==> e.index < |acc|) && 0 <= q < |acc|
    ensures AddStart(acc, es, size)[q] == acc[q] + ShallowContribution(es, q, size)
    decreases |es|
  {
    if es != [] {
      var acc2 := if IsStartObject(es[0].state) then acc[es[0].index := acc[es[0].index] + size] else acc;
      SortedTail(es);
      assert forall e :: e in es[1..] ==> e in es;
      AddStartAt(acc2, es[1..], size, q);
      if q == es[0].index {
        FindAbsent(es[1..], q);
      }
    }
  }

  /** The two halves of the shallow and retained iteration, on the same objects. */
  datatype Pair = Pair(shallow: seq<int>, retained: seq<int>)

  /** The heap iteration with `visitObjectForShallowAndRetainedSize`. */
  function ShallowAndRetainedSizes(acc: Pair, h: Heap, objects: seq<HeapObject>): (r: Pair)
    requires HeapValid(h) && h.engine.store.queries <= |acc.shallow| && h.engine.store.queries <= |acc.retained|
    requires forall i :: 0 <= i < |objects| ==> ObjectIn(objects[i], h.slots)
    ensures |r.shallow| == |acc.shallow| && |r.retained| == |acc.retained|
    decreases |objects|
  {
    if objects == [] then acc
    else
      var o := objects[0];
      assert ObjectIn(o, h.slots);
      EntriesBounded(h, o, |acc.shallow|);
      EntriesBounded(h, o, |acc.retained|);
      var acc2 := if h.slots[o.id] == NO_TAG then acc
                  else Pair(AddStart(acc.shallow, EntriesOf(h, o), o.size), AddRetained(acc.retained, EntriesOf(h, o), o.size));
      ShallowAndRetainedSizes(acc2, h, objects[1..])
  }

  /** Query `q`'s shallow size over `objects`: the sizes of its start objects. */
  function ShallowTotal(h: Heap, objects: seq<HeapObject>, q: int): int
    requires forall i :: 0 <= i < |objects| ==> ObjectIn(objects[i], h.slots)
    decreases |objects|
  {
    if objects == [] then 0
    else
      assert ObjectIn(objects[0], h.slots);
      ShallowContribution(EntriesOf(h, objects[0]), q, objects[0].size) + ShallowTotal(h, objects[1..], q)
  }

  /** The shallow and retained iteration adds to every query its shallow and its retained size. */
  lemma {:induction false} ShallowAndRetainedTotals(acc: Pair, h: Heap, objects: seq<HeapObject>)
    requires HeapValid(h) && h.engine.store.queries <= |acc.shallow| && h.engine.store.queries <= |acc.retained|
    requires forall i :: 0 <= i < |objects| ==> ObjectIn(objects[i], h.slots)
    ensures var r := ShallowAndRetainedSizes(acc, h, objects);
            (forall q :: 0 <= q < |acc.shallow| ==> r.shallow[q] == acc.shallow[q] + ShallowTotal(h, objects, q))
            && (forall q :: 0 <= q < |acc.retained| ==> r.retained[q] == acc.retained[q] + Total(h, objects, q))
    decreases |objects|
  {
    if objects != [] {
      var o := objects[0];
      assert ObjectIn(o, h.slots);
      EntriesBounded(h, o, |acc.shallow|);
      EntriesBounded(h, o, |acc.retained|);
      var acc2 := if h.slots[o.id] == NO_TAG then acc
                  else Pair(AddStart(acc.shallow, EntriesOf(h, o), o.size), AddRetained(acc.retained, EntriesOf(h, o), o.size));
      if h.slots[o.id] != NO_TAG {
        AddStartSum(acc.shallow, EntriesOf(h, o), o.size);
        AddRetainedSum(acc.retained, EntriesOf(h, o), o.size);
      }
      ShallowAndRetainedTotals(acc2, h, objects[1..]);
    }
  }

  /** A start object is retained, so with non-negative sizes no query's shallow size exceeds its retained size. */
  lemma {:induction false} ShallowAtMostRetained(h: Heap, objects: seq<HeapObject>, q: int)
    requires forall i :: 0 <= i < |objects| ==> ObjectIn(objects[i], h.slots) && objects[i].size >= 0
    ensures 0 <= ShallowTotal(h, objects, q) <= Total(h, objects, q)
    decreases |objects|
  {
    if objects != [] {
      assert ObjectIn(objects[0], h.slots);
      ShallowAtMostRetained(h, objects[1..], q);
    }
  }

  /** Both totals from zero vectors, one slot per query, the shallow one never above the retained one. */
  lemma ShallowAndRetainedFromZeros(h: Heap, objects: seq<HeapObject>, n: nat)
    requires HeapValid(h) && h.engine.store.queries == n
    requires forall i :: 0 <= i < |objects| ==> ObjectIn(objects[i], h.slots) && objects[i].size >= 0
    ensures var p := ShallowAndRetainedSizes(Pair(Zeros(n), Zeros(n)), h, objects);
            |p.shallow| == n && |p.retained| == n
            && forall q :: 0 <= q < n ==>
                 p.shallow[q] == ShallowTotal(h, objects, q) && p.retained[q] == Total(h, objects, q)
                 && 0 <= p.shallow[q] <= p.retained[q]
  {
    ShallowAndRetainedTotals(Pair(Zeros(n), Zeros(n)), h, objects);
    forall q | 0 <= q < n ensures 0 <= ShallowTotal(h, objects, q) <= Total(h, objects, q) {
      ShallowAtMostRetained(h, objects, q);
    }
  }

  /** The heap, the ids of the listed classes and the reports fit one retained-size-by-classes call. */
  ghost predicate Ready(h: Heap, classes: seq<ObjId>, r: Reports, c: Clock) {
    HeapValid(h) && ReportsIn(h.slots, r, c) && ObjectPassReady(h, TagObjectOfTaggedClassPass)
    && (forall k :: k in classes ==> k in h.slots) && h.engine.store.queries == |classes|
  }

  /**
   * The phases both by-classes operations share: tag the classes and their
   * instances, then tag the heap. `checks[0]` and `checks[5]` are
   * `shouldStopExecution` after the first and the second phase, and
   * `checks[1..5]` the answers inside `tagHeap`.
   */
  function TagPhases(h: Heap, classes: seq<ObjId>, r: Reports, c: Clock, checks: seq<bool>): (res: (Heap, AgentError))
    requires Ready(h, classes, r, c) && |checks| == 6
    ensures HeapValid(res.0) && res.0.slots.Keys == h.slots.Keys && res.0.engine.store.queries == |classes|
    ensures res.1 in {NoError, Timeout, Interrupted}
    ensures res.1 == Interrupted ==> checks[0] || checks[5]
    ensures res.1 == Timeout ==> true in checks[1..5] || true in c.late
    ensures checks[0] || checks[5] || true in checks[1..5] ==> res.1 != NoError
  {
    var h1 := TagObjectsOfClasses(h, classes, r.objects);
    if checks[0] then (h1, Interrupted)
    else
      ReportsKept(h.slots, h1.slots, r, c);
      TagHeapTimesOut(h1, r, c, checks[1..5]);
      var (h2, err) := TagHeap(h1, r, c, checks[1..5]);
      if err != NoError then (h2, err)
      else if checks[5] then (h2, Interrupted)
      else (h2, NoError)
  }

  /** The outcome of a retained-size-by-classes call: the heap after it, its error and its result vector. */
  datatype Sizes = Sizes(heap: Heap, err: AgentError, result: seq<int>)

  /**
   * `getRetainedSizeByClasses`: after the tagging phases the result gets one
   * zero slot per class and the heap iteration totals the retained sizes.
   * After an error the result vector was never resized, and
   * `executeOperation` returns that empty array.
   */
  function GetRetainedSizeByClasses(h: Heap, classes: seq<ObjId>, r: Reports, c: Clock, checks: seq<bool>): (res: Sizes)
    requires Ready(h, classes, r, c) && |checks| == 6
    ensures res.err != NoError ==> res.result == []
  {
    var (h2, err) := TagPhases(h, classes, r, c, checks);
    if err != NoError then Sizes(h2, err, [])
    else
      ObjectsKept(h.slots, h2.slots, r.objects);
      Sizes(h2, NoError, RetainedSizes(Zeros(|classes|), h2, r.objects))
  }

  /** Every reported object is an object of the heap. */
  predicate ObjectsIn(h: Heap, objects: seq<HeapObject>) {
    forall i :: 0 <= i < |objects| ==> ObjectIn(objects[i], h.slots)
  }

  /**
   * A call that returns no error reports, for every class, the total size of
   * the objects its query retains on the tagged heap.
   */
  lemma RetainedSizeByClassesResult(h: Heap, classes: seq<ObjId>, r: Reports, c: Clock, checks: seq<bool>)
    requires Ready(h, classes, r, c) && |checks| == 6
    ensures var res := GetRetainedSizeByClasses(h, classes, r, c, checks);
            res.err == NoError ==>
              |res.result| == |classes| && ObjectsIn(res.heap, r.objects)
              && forall q :: 0 <= q < |classes| ==> res.result[q] == Total(res.heap, r.objects, q)
  {
    var (h2, err) := TagPhases(h, classes, r, c, checks);
    if err == NoError {
      ObjectsKept(h.slots, h2.slots, r.objects);
      ZeroTotals(h2, |classes|, r.objects);
    }
  }

  /** Starting from zeros, the heap iteration leaves every query's retained total in its slot. */
  lemma ZeroTotals(h: Heap, n: nat, objects: seq<HeapObject>)
    requires HeapValid(h) && h.engine.store.queries <= n && ObjectsIn(h, objects)
    ensures |RetainedSizes(Zeros(n), h, objects)| == n
    ensures forall q :: 0 <= q < n ==> RetainedSizes(Zeros(n), h, objects)[q] == Total(h, objects, q)
  {
    RetainedSizesTotal(Zeros(n), h, objects);
  }

  /** The outcome of a shallow-and-retained call. */
  datatype TwoSizes = TwoSizes(heap: Heap, err: AgentError, shallow: seq<int>, retained: seq<int>)

  /**
   * `getShallowAndRetainedSizeByClasses`: the same phases, then both totals
   * in one iteration. `executeOperation` returns both vectors whatever the
   * error.
   */
  function GetShallowAndRetainedSizeByClasses(h: Heap, classes: seq<ObjId>, r: Reports, c: Clock, checks: seq<bool>)
    : (res: TwoSizes)
    requires Ready(h, classes, r, c) && |checks| == 6
  {
    var (h2, err) := TagPhases(h, classes, r, c, checks);
    if err != NoError then TwoSizes(h2, err, [], [])
    else
      ObjectsKept(h.slots, h2.slots, r.objects);
      var p := ShallowAndRetainedSizes(Pair(Zeros(|classes|), Zeros(|classes|)), h2, r.objects);
      TwoSizes(h2, NoError, p.shallow, p.retained)
  }

  /**
   * The shallow-and-retained call returns both vectors: both empty after an
   * error, otherwise one slot per class each holding the shallow and the
   * retained total, the shallow one never above the retained one when sizes
   * are non-negative.
   */
  lemma ShallowAndRetainedResult(h: Heap, classes: seq<ObjId>, r: Reports, c: Clock, checks: seq<bool>)
    requires Ready(h, classes, r, c) && |checks| == 6
    requires forall i :: 0 <= i < |r.objects| ==> r.objects[i].size >= 0
    ensures var res := GetShallowAndRetainedSizeByClasses(h, classes, r, c, checks);
            (res.err != NoError ==> res.shallow == [] && res.retained == [])
            && (res.err == NoError ==>
                  |res.shallow| == |classes| && |res.retained| == |classes| && ObjectsIn(res.heap, r.objects)
                  && forall q :: 0 <= q < |classes| ==>
                       res.shallow[q] == ShallowTotal(res.heap, r.objects, q)
                       && res.retained[q] == Total(res.heap, r.objects, q)
                       && 0 <= res.shallow[q] <= res.retained[q])
  {
    var (h2, err) := TagPhases(h, classes, r, c, checks);
    if err == NoError {
      ObjectsKept(h.slots, h2.slots, r.objects);
      ShallowAndRetainedFromZeros(h2, r.objects, |classes|);
    }
  }


  /** The totals, through `VisitObject` on a result array, in the iteration's order. */
  method VisitObjects(cb: Callbacks, result: array<int>, objects: seq<HeapObject>)
    requires cb.Valid() && cb.tags.queries <= result.Length && ObjectsIn(cb.HeapState(), objects)
    modifies result
    ensures result[..] == RetainedSizes(old(result[..]), cb.HeapState(), objects)
  {
    var i := 0;
    while i < |objects|
      invariant 0 <= i <= |objects|
      invariant RetainedSizes(result[..], cb.HeapState(), objects[i..]) == RetainedSizes(old(result[..]), cb.HeapState(), objects)
    {
      assert objects[i..][1..] == objects[i + 1..] && objects[i..][0] == objects[i];
      var o := objects[i];
      assert ObjectIn(o, cb.slots);
      var tag := cb.slots[o.id];
      if tag != NO_TAG {
        assert Live(cb.tags.State(), tag);
        cb.VisitObject(result, tag, o.size);
      }
      i := i + 1;
    }
  }

  /** `visitObjectForShallowAndRetainedSize` for one object's entries, into the two result arrays. */
  method VisitObjectForShallowAndRetainedSize(shallow: array<int>, retained: array<int>, es: seq<TagInfo>, size: int)
    requires shallow != retained
    requires forall e :: e in es ==> e.index < shallow.Length && e.index < retained.Length
    modifies shallow, retained
    ensures shallow[..] == AddStart(old(shallow[..]), es, size)
    ensures retained[..] == AddRetained(old(retained[..]), es, size)
  {
    var i := 0;
    while i < |es|
      invariant 0 <= i <= |es|
      invariant AddStart(shallow[..], es[i..], size) == AddStart(old(shallow[..]), es, size)
      invariant AddRetained(retained[..], es[i..], size) == AddRetained(old(retained[..]), es, size)
    {
      ghost var s0, r0 := shallow[..], retained[..];
      assert es[i..][1..] == es[i + 1..] && es[i..][0] == es[i];
      var x := es[i];
      if IsRetained(x.state) {
        retained[x.index] := retained[x.index] + size;
        assert retained[..] == r0[x.index := r0[x.index] + size];
      }
      ghost var r1 := retained[..];
      if IsStartObject(x.state) {
        shallow[x.index] := shallow[x.index] + size;
        assert shallow[..] == s0[x.index := s0[x.index] + size];
      }
      assert retained[..] == r1;
      i := i + 1;
    }
  }

  /** The shallow-and-retained iteration over the result arrays. */
  method VisitObjectsForShallowAndRetained(cb: Callbacks, shallow: array<int>, retained: array<int>, objects: seq<HeapObject>)
    requires cb.Valid() && shallow != retained && ObjectsIn(cb.HeapState(), objects)
    requires cb.tags.queries <= shallow.Length && cb.tags.queries <= retained.Length
    modifies shallow, retained
    ensures Pair(shallow[..], retained[..]) == ShallowAndRetainedSizes(Pair(old(shallow[..]), old(retained[..])), cb.HeapState(), objects)
  {
    var i := 0;
    while i < |objects|
      invariant 0 <= i <= |objects|
      invariant ShallowAndRetainedSizes(Pair(shallow[..], retained[..]), cb.HeapState(), objects[i..])
                == ShallowAndRetainedSizes(Pair(old(shallow[..]), old(retained[..])), cb.HeapState(), objects)
    {
      assert objects[i..][1..] == objects[i + 1..] && objects[i..][0] == objects[i];
      var o := objects[i];
      assert ObjectIn(o, cb.slots);
      var tag := cb.slots[o.id];
      if tag != NO_TAG {
        assert Live(cb.tags.State(), tag);
        EntriesBounded(cb.HeapState(), o, shallow.Length);
        EntriesBounded(cb.HeapState(), o, retained.Length);
        VisitObjectForShallowAndRetainedSize(shallow, retained, cb.tags.tags[tag].entries, o.size);
      }
      i := i + 1;
    }
  }

  /** Zeroes a result array, as `std::vector<jlong>(n)` does. */
  method Fill(a: array<int>)
    modifies a
    ensures a[..] == Zeros(a.Length)
  {
    var i := 0;
    while i < a.Length
      invariant 0 <= i <= a.Length
      invariant forall k :: 0 <= k < i ==> a[k] == 0
    {
      a[i] := 0;
      i := i + 1;
    }
  }

  /** A zeroed vector with one slot per query, then the iteration with `visitObject`. */
  method RetainedTotals(cb: Callbacks, n: nat, objects: seq<HeapObject>) returns (result: seq<int>)
    requires cb.Valid() && cb.tags.queries == n && ObjectsIn(cb.HeapState(), objects)
    ensures result == RetainedSizes(Zeros(n), cb.HeapState(), objects)
  {
    var a := new int[n];
    Fill(a);
    VisitObjects(cb, a, objects);
    result := a[..];
  }

  /** Two zeroed vectors, then the iteration with `visitObjectForShallowAndRetainedSize`. */
  method ShallowAndRetainedTotalsInPlace(cb: Callbacks, n: nat, objects: seq<HeapObject>)
    returns (shallow: seq<int>, retained: seq<int>)
    requires cb.Valid() && cb.tags.queries == n && ObjectsIn(cb.HeapState(), objects)
    ensures Pair(shallow, retained) == ShallowAndRetainedSizes(Pair(Zeros(n), Zeros(n)), cb.HeapState(), objects)
  {
    var s := new int[n];
    Fill(s);
    var t := new int[n];
    Fill(t);
    VisitObjectsForShallowAndRetained(cb, s, t, objects);
    shallow, retained := s[..], t[..];
  }

  /** The shared tagging phases on the callbacks' state in place. */
  method TagPhasesInPlace(cb: Callbacks, classes: seq<ObjId>, r: Reports, c: Clock, checks: seq<bool>)
    returns (err: AgentError)
    requires cb.Valid() && Ready(cb.HeapState(), classes, r, c) && |checks| == 6
    modifies cb, cb.tags
    ensures cb.Valid() && (cb.HeapState(), err) == TagPhases(old(cb.HeapState()), classes, r, c, checks)
  {
    ghost var h := cb.HeapState();
    TagObjectsOfClassesInPlace(cb, classes, r.objects);
    if checks[0] {
      return Interrupted;
    }
    ReportsKept(h.slots, cb.slots, r, c);
    err := TagHeapInPlace(cb, r, c, checks[1..5]);
    if err == NoError && checks[5] {
      err := Interrupted;
    }
  }

  /** `getRetainedSizeByClasses` on the callbacks' state in place. */
  method RetainedSizeByClassesInPlace(cb: Callbacks, classes: seq<ObjId>, r: Reports, c: Clock, checks: seq<bool>)
    returns (err: AgentError, result: seq<int>)
    requires cb.Valid() && Ready(cb.HeapState(), classes, r, c) && |checks| == 6
    modifies cb, cb.tags
    ensures cb.Valid() && Sizes(cb.HeapState(), err, result) == GetRetainedSizeByClasses(old(cb.HeapState()), classes, r, c, checks)
  {
    ghost var h := cb.HeapState();
    err := TagPhasesInPlace(cb, classes, r, c, checks);
    ghost var h2 := cb.HeapState();
    assert (h2, err) == TagPhases(h, classes, r, c, checks);
    if err != NoError {
      return err, [];
    }
    ObjectsKept(h.slots, h2.slots, r.objects);
    result := RetainedTotals(cb, |classes|, r.objects);
  }

  /** `getShallowAndRetainedSizeByClasses` on the callbacks' state in place. */
  method ShallowAndRetainedInPlace(cb: Callbacks, classes: seq<ObjId>, r: Reports, c: Clock, checks: seq<bool>)
    returns (err: AgentError, shallow: seq<int>, retained: seq<int>)
    requires cb.Valid() && Ready(cb.HeapState(), classes, r, c) && |checks| == 6
    modifies cb, cb.tags
    ensures cb.Valid()
    ensures TwoSizes(cb.HeapState(), err, shallow, retained)
            == GetShallowAndRetainedSizeByClasses(old(cb.HeapState()), classes, r, c, checks)
  {
    ghost var h := cb.HeapState();
    err := TagPhasesInPlace(cb, classes, r, c, checks);
    ghost var h2 := cb.HeapState();
    assert (h2, err) == TagPhases(h, classes, r, c, checks);
    if err != NoError {
      return err, [], [];
    }
    ObjectsKept(h.slots, h2.slots, r.objects);
    shallow, retained := ShallowAndRetainedTotalsInPlace(cb, |classes|, r.objects);
  }
}
