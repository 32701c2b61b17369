/**
 * The reference-counted tags of the retained-size engine. The JVM stores a
 * 64-bit tag per object; the engine stores there the address of a `Tag`
 * object. Here the live `Tag` objects form a store keyed by address: address
 * 0 means "untagged", addresses 1, 2 and 3 are the three static tags
 * (`EmptyTag`, `TagWithNewInfo`, `HeldObjectTag`), and every tag made by a
 * `create` function gets a fresh address from 4 on. Objects that share a tag
 * hold the same address, so a change to that tag is seen by all of them.
 */
module SizesTags {
  import opened Jvmti
  import opened SizesState
  import opened TagInfoArrays
  import Counting

  const NO_TAG: int := 0
  const EMPTY_TAG: int := 1
  const TAG_WITH_NEW_INFO: int := 2
  const HELD_OBJECT_TAG: int := 3
  const FIRST_HEAP_TAG: int := 4

  /** The three statically allocated tags, which `unref` never releases. */
  predicate IsStatic(a: int) {
    a == EMPTY_TAG || a == TAG_WITH_NEW_INFO || a == HELD_OBJECT_TAG
  }

  /**
   * One `Tag` object. `id` is the class id of a `ClassTag` (0 for a plain
   * tag, so `getId() > 0` identifies class tags of listed classes);
   * `classTag` says whether the object is a `ClassTag` at all.
   */
  datatype TagRec = TagRec(entries: seq<TagInfo>, isStartTag: bool, alreadyReferred: bool,
                           refCount: nat, id: nat, classTag: bool)

  /** `Tag()`: no entries, not a start tag, one reference. */
  const BlankRec: TagRec := TagRec([], false, false, 1, 0, false)

  /** `Tag(index, state)`: the start tag of one query. */
  function StartRec(index: QueryIndex, state: State): TagRec {
    TagRec([TagInfo(index, state)], true, false, 1, 0, false)
  }

  /** `Tag(referree, referrer)`: merged entries, the referee's flags. */
  function MergedRec(ree: TagRec, rer: TagRec): TagRec {
    TagRec(Merged(ree.entries, rer.entries, AlreadyVisited(ree.entries)), ree.isStartTag, ree.alreadyReferred, 1, 0, false)
  }

  /** `Tag(TagInfoArray &&)`: given entries, not a start tag. */
  function ArrayRec(es: seq<TagInfo>): TagRec {
    TagRec(es, false, false, 1, 0, false)
  }

  /** `ClassTag(id)`: a class tag without entries. */
  function ClassRec(id: QueryIndex): TagRec {
    TagRec([], false, false, 1, id, true)
  }

  /** `ClassTag(index, state, id)`: a class tag that is also a start tag of query `index`. */
  function ClassStartRec(index: QueryIndex, state: State, id: QueryIndex): TagRec {
    TagRec([TagInfo(index, state)], true, false, 1, id, true)
  }

  /** The entries of a tag are sorted and name only queries below `queries`. */
  predicate WellFormed(r: TagRec, queries: nat) {
    Sorted(r.entries) && (forall e :: e in r.entries ==> e.index < queries) && r.id <= queries
  }

  /** Every `(index, state)` entry of `rer` also occurs in `ree`. */
  predicate Covered(rer: seq<TagInfo>, ree: seq<TagInfo>) {
    forall e :: e in rer ==> e in ree
  }

  /**
   * `shouldMerge`: whether the referrer's entries bring anything new to the
   * referee. On sorted arrays it is false exactly when every `(index, state)`
   * pair of the referrer already occurs in the referee.
   */
  method ShouldMerge(ree: seq<TagInfo>, rer: seq<TagInfo>) returns (r: bool)
    ensures Sorted(ree) && Sorted(rer) ==> (r <==> !Covered(rer, ree))
  {
    if |rer| > |ree| {
      if Sorted(ree) && Sorted(rer) && Covered(rer, ree) {
        CoveredCard(rer, ree);
      }
      return true;
    }
    var i, j := 0, 0;
    while i < |ree| && j < |rer|
      invariant 0 <= i <= |ree| && 0 <= j <= |rer|
      invariant Sorted(ree) && Sorted(rer) ==> forall t :: 0 <= t < j ==> rer[t] in ree
      invariant Sorted(ree) && Sorted(rer) && j < |rer| ==> forall t :: 0 <= t < i ==> ree[t].index < rer[j].index
    {
      if ree[i].index == rer[j].index {
        if ree[i].state == rer[j].state {
          i, j := i + 1, j + 1;
        } else {
          if Sorted(ree) && Sorted(rer) {
            NotInByIndex(ree, rer[j], i);
          }
          return true;
        }
      } else if ree[i].index < rer[j].index {
        i := i + 1;
      } else {
        if Sorted(ree) && Sorted(rer) {
          NotInByIndex(ree, rer[j], i);
        }
        return true;
      }
    }
    if j < |rer| {
      if Sorted(ree) && Sorted(rer) {
        NotInByIndex(ree, rer[j], i);
      }
      return true;
    }
    return false;
  }

  /** An entry is absent from a sorted array when the array skips past its index without meeting it. */
  lemma NotInByIndex(ree: seq<TagInfo>, x: TagInfo, i: int)
    requires Sorted(ree) && 0 <= i <= |ree|
    requires forall t :: 0 <= t < i ==> ree[t].index < x.index
    requires i < |ree| ==> ree[i].index > x.index || (ree[i].index == x.index && ree[i].state != x.state)
    ensures x !in ree
  {
  }

  /** A sorted array covered by another sorted array is not longer than it. */
  lemma CoveredCard(rer: seq<TagInfo>, ree: seq<TagInfo>)
    requires Sorted(ree) && Sorted(rer) && Covered(rer, ree)
    ensures |rer| <= |ree|
  {
    SortedCard(rer);
    SortedCard(ree);
    assert Indices(rer) <= Indices(ree);
    Counting.SubsetCard(Indices(rer), Indices(ree));
  }

  /** The state an entry gets in a copy without start marks. */
  predicate Unmarked(before: State, after: State) {
    !IsStartObject(after) && IsAlreadyVisited(after) && after < 16
    && IsInSubtree(after) == IsInSubtree(before)
    && IsReachableOutside(after) == (!IsStartObject(before) && IsReachableOutside(before))
  }

  /**
   * The entries of `copyWithoutStartMarks`: every entry keeps its index,
   * loses its start mark, keeps in-subtree, and is reachable from outside
   * only if it was so and was not a start entry.
   */
  function Unmark(a: seq<TagInfo>): (r: seq<TagInfo>)
    ensures |r| == |a|
    ensures forall i :: 0 <= i < |a| ==> r[i].index == a[i].index && Unmarked(a[i].state, r[i].state)
    ensures Indices(r) == Indices(a)
    ensures Sorted(a) ==> Sorted(r)
  {
    var r := seq(|a|, i requires 0 <= i < |a| => TagInfo(a[i].index, UpdateState(CreateState(false, false, false, true), a[i].state)));
    SameIndices(a, r);
    r
  }

  /** The state an entry gets when its object is reached from an untagged referrer. */
  predicate VisitedFromUntagged(before: State, after: State) {
    IsStartObject(after) == IsStartObject(before) && IsInSubtree(after) == IsInSubtree(before)
    && IsReachableOutside(after) && IsAlreadyVisited(after) && after & 0xF0 == before & 0xF0
  }

  /**
   * The entries after `visitFromUntaggedReferrer`: every entry keeps its
   * index, its start and in-subtree flags and its unused bits, and becomes
   * reachable from outside and visited.
   */
  function VisitAll(a: seq<TagInfo>): (r: seq<TagInfo>)
    ensures |r| == |a|
    ensures forall i :: 0 <= i < |a| ==> r[i].index == a[i].index && VisitedFromUntagged(a[i].state, r[i].state)
    ensures Indices(r) == Indices(a)
    ensures Sorted(a) ==> Sorted(r)
  {
    var r := seq(|a|, i requires 0 <= i < |a| => TagInfo(a[i].index, AsVisitedFromUntagged(a[i].state)));
    SameIndices(a, r);
    r
  }

  /** The loop of `copyWithoutStartMarks`, writing the entries one by one. */
  method CopyWithoutStartMarksEntries(a: seq<TagInfo>) returns (r: seq<TagInfo>)
    ensures r == Unmark(a)
  {
    r := [];
    var i := 0;
    while i < |a|
      invariant 0 <= i <= |a| && r == Unmark(a)[..i]
    {
      r := r + [TagInfo(a[i].index, UpdateState(CreateState(false, false, false, true), a[i].state))];
      i := i + 1;
    }
  }

  /** The in-place loop of `visitFromUntaggedReferrer`, over the entries of one tag. */
  method AsVisitedEntries(a: seq<TagInfo>) returns (r: seq<TagInfo>)
    ensures r == VisitAll(a)
  {
    r := a;
    var i := 0;
    while i < |a|
      invariant 0 <= i <= |a| && |r| == |a|
      invariant r[..i] == VisitAll(a)[..i] && r[i..] == a[i..]
    {
      r := r[i := TagInfo(r[i].index, AsVisitedFromUntagged(r[i].state))];
      i := i + 1;
    }
  }

  /** Two arrays with the same index at every position have the same indices and sortedness. */
  lemma SameIndices(a: seq<TagInfo>, r: seq<TagInfo>)
    requires |r| == |a| && forall i :: 0 <= i < |a| ==> r[i].index == a[i].index
    ensures Indices(r) == Indices(a)
    ensures Sorted(a) ==> Sorted(r)
  {
    forall x | x in Indices(a) ensures x in Indices(r) {
      var e :| e in a && e.index == x;
      var i :| 0 <= i < |a| && a[i] == e;
      assert r[i] in r;
    }
    forall x | x in Indices(r) ensures x in Indices(a) {
      var e :| e in r && e.index == x;
      var i :| 0 <= i < |r| && r[i] == e;
      assert a[i] in a;
    }
  }

  /**
   * The live tags, addressed as the JVM's 64-bit tags, the next fresh
   * address, the global `tagBalance` counter, and the number of queries of
   * the current operation (every entry index is below it).
   */
  datatype Store = Store(tags: map<int, TagRec>, next: int, balance: int, queries: nat)

  /** A new tag slot value together with the store it lives in. */
  datatype Made = Made(store: Store, tag: int)

  function HeapAddresses(tags: map<int, TagRec>): set<int> {
    set a | a in tags && a >= FIRST_HEAP_TAG
  }

  /**
   * The statics exist, addresses below `next` are the only ones used,
   * every heap tag is referenced, all entries are well formed, and the
   * balance counts exactly the tags made by `create` and not yet destroyed.
   */
  predicate StoreValid(s: Store) {
    s.queries <= MAX_SIZE
    && EMPTY_TAG in s.tags && TAG_WITH_NEW_INFO in s.tags && HELD_OBJECT_TAG in s.tags
    && FIRST_HEAP_TAG <= s.next
    && (forall a :: a in s.tags ==> EMPTY_TAG <= a < s.next)
    && (forall a :: a in s.tags ==> WellFormed(s.tags[a], s.queries))
    && (forall a :: a in s.tags && a >= FIRST_HEAP_TAG ==> s.tags[a].refCount > 0)
    && s.balance == |HeapAddresses(s.tags)|
  }

  /** A value a tag slot may hold: untagged or a live tag. */
  predicate Live(s: Store, t: int) {
    t == NO_TAG || t in s.tags
  }

  /** The store before any operation: only the three statics, balance zero. */
  function InitialStore(queries: nat): (s: Store)
    ensures queries <= MAX_SIZE ==> StoreValid(s)
    ensures s.balance == 0 && HeapAddresses(s.tags) == {}
  {
    var s := Store(map[EMPTY_TAG := BlankRec, TAG_WITH_NEW_INFO := BlankRec, HELD_OBJECT_TAG := BlankRec],
                   FIRST_HEAP_TAG, 0, queries);
    assert HeapAddresses(s.tags) == {};
    s
  }

  /** A fresh heap tag at the next address; the `++tagBalance` of every `create`. */
  function AfterAdd(s: Store, r: TagRec): Made {
    Made(Store(s.tags[s.next := r], s.next + 1, s.balance + 1, s.queries), s.next)
  }

  /** Adding a well-formed referenced tag keeps the store valid, at an address not used before. */
  lemma AddValid(s: Store, r: TagRec)
    requires StoreValid(s) && WellFormed(r, s.queries) && r.refCount > 0
    ensures StoreValid(AfterAdd(s, r).store) && s.next !in s.tags && AfterAdd(s, r).tag >= FIRST_HEAP_TAG
    ensures AfterAdd(s, r).store.tags[AfterAdd(s, r).tag] == r
  {
    assert s.next !in s.tags;
    assert HeapAddresses(AfterAdd(s, r).store.tags) == HeapAddresses(s.tags) + {s.next};
  }

  /** A change to one tag's record that keeps it well formed and referenced keeps the store valid. */
  lemma UpdateValid(s: Store, a: int, r: TagRec)
    requires StoreValid(s) && a in s.tags && WellFormed(r, s.queries) && (a >= FIRST_HEAP_TAG ==> r.refCount > 0)
    ensures StoreValid(Store(s.tags[a := r], s.next, s.balance, s.queries))
  {
    assert HeapAddresses(s.tags[a := r]) == HeapAddresses(s.tags);
  }

  /** `Tag::create(index, state)`. */
  function AfterCreate(s: Store, index: QueryIndex, state: State): Made {
    AfterAdd(s, StartRec(index, state))
  }

  /** `Tag::create(referree, referrer)`. */
  function AfterCreateMerged(s: Store, ree: int, rer: int): Made
    requires ree in s.tags && rer in s.tags
  {
    AfterAdd(s, MergedRec(s.tags[ree], s.tags[rer]))
  }

  /** `copyWithoutStartMarks`. */
  function AfterCopyWithoutStartMarks(s: Store, a: int): Made
    requires a in s.tags
  {
    AfterAdd(s, ArrayRec(Unmark(s.tags[a].entries)))
  }

  /** `ClassTag::create(index)`. */
  function AfterCreateClassTag(s: Store, id: QueryIndex): Made {
    AfterAdd(s, ClassRec(id))
  }

  /** `ClassTag::create(index, state, id)`. */
  function AfterCreateClassStartTag(s: Store, index: QueryIndex, state: State, id: QueryIndex): Made {
    AfterAdd(s, ClassStartRec(index, state, id))
  }

  /** `ref`. */
  function AfterRef(s: Store, a: int): Store
    requires a in s.tags
  {
    s.(tags := s.tags[a := s.tags[a].(refCount := s.tags[a].refCount + 1)])
  }

  /**
   * `share`: a start tag is copied without start marks and the copy is
   * returned; any other tag gains a reference and is returned itself.
   */
  function AfterShare(s: Store, a: int): (m: Made)
    requires a in s.tags
    ensures s.tags[a].isStartTag ==>
              m.tag == s.next && m.store.tags == s.tags[m.tag := ArrayRec(Unmark(s.tags[a].entries))]
              && m.store.balance == s.balance + 1
    ensures !s.tags[a].isStartTag ==>
              m.tag == a && m.store.tags == s.tags[a := s.tags[a].(refCount := s.tags[a].refCount + 1)]
              && m.store.balance == s.balance
  {
    if s.tags[a].isStartTag then AfterCopyWithoutStartMarks(s, a) else Made(AfterRef(s, a), a)
  }

  /**
   * The tag map after `unref` on address `a`: the static tags are left
   * alone; another tag loses one reference and is deleted when that was
   * its last.
   */
  function UnrefTags(tags: map<int, TagRec>, a: int): (r: map<int, TagRec>)
    requires a in tags
    ensures IsStatic(a) ==> r == tags
    ensures !IsStatic(a) ==> (a in r <==> tags[a].refCount > 1)
    ensures a in r && !IsStatic(a) ==> r[a] == tags[a].(refCount := tags[a].refCount - 1)
    ensures forall b :: b != a ==> (b in r <==> b in tags)
    ensures forall b :: b != a && b in r ==> r[b] == tags[b]
  {
    if IsStatic(a) then tags
    else if tags[a].refCount <= 1 then tags - {a}
    else tags[a := tags[a].(refCount := tags[a].refCount - 1)]
  }

  /** Whether `unref` on `a` deletes the tag. */
  predicate Released(tags: map<int, TagRec>, a: int)
    requires a in tags
  {
    !IsStatic(a) && tags[a].refCount <= 1
  }

  /** `unref`: see `UnrefTags`; the destructor of a deleted tag decrements the balance. */
  function AfterUnref(s: Store, a: int): Store
    requires a in s.tags
  {
    s.(tags := UnrefTags(s.tags, a), balance := s.balance - if Released(s.tags, a) then 1 else 0)
  }

  /** `delete`: destroys a tag whatever its reference count. */
  function AfterDelete(s: Store, a: int): Store {
    s.(tags := s.tags - {a}, balance := s.balance - 1)
  }

  /** `visitFromUntaggedReferrer`, which rewrites the entries in place. */
  function AfterVisitFromUntaggedReferrer(s: Store, a: int): Store
    requires a in s.tags
  {
    s.(tags := s.tags[a := s.tags[a].(entries := VisitAll(s.tags[a].entries))])
  }

  /** `alreadyReferred = true`. */
  function AfterMarkReferred(s: Store, a: int): Store
    requires a in s.tags
  {
    s.(tags := s.tags[a := s.tags[a].(alreadyReferred := true)])
  }

  /** The free function `merge`: a fresh merged tag, then one reference to the referee released. */
  function AfterMerge(s: Store, ree: int, rer: int): (m: Made)
    requires ree in s.tags && rer in s.tags
    ensures m.tag == s.next
  {
    var c := AfterCreateMerged(s, ree, rer);
    Made(AfterUnref(c.store, ree), c.tag)
  }

  /** `array.extend(other.array)` on the arrays of two tags. */
  function AfterExtend(s: Store, a: int, b: int): Store
    requires a in s.tags && b in s.tags
  {
    s.(tags := s.tags[a := s.tags[a].(entries := s.tags[a].entries + s.tags[b].entries)])
  }

  /** The creating operations keep the store valid. */
  lemma CreateValid(s: Store, index: QueryIndex, state: State, id: QueryIndex)
    requires StoreValid(s) && index < s.queries && id <= s.queries
    ensures StoreValid(AfterCreate(s, index, state).store)
    ensures StoreValid(AfterCreateClassTag(s, id).store)
    ensures StoreValid(AfterCreateClassStartTag(s, index, state, id).store)
  {
    AddValid(s, StartRec(index, state));
    AddValid(s, ClassRec(id));
    AddValid(s, ClassStartRec(index, state, id));
  }

  /** `share` keeps the store valid and returns a live tag. */
  lemma ShareValid(s: Store, a: int)
    requires StoreValid(s) && a in s.tags
    ensures StoreValid(AfterShare(s, a).store) && AfterShare(s, a).tag in AfterShare(s, a).store.tags
    ensures AfterShare(s, a).tag != NO_TAG
  {
    if s.tags[a].isStartTag {
      AddValid(s, ArrayRec(Unmark(s.tags[a].entries)));
    } else {
      UpdateValid(s, a, s.tags[a].(refCount := s.tags[a].refCount + 1));
    }
  }

  /** `unref` keeps the store valid. */
  lemma UnrefValid(s: Store, a: int)
    requires StoreValid(s) && a in s.tags
    ensures StoreValid(AfterUnref(s, a))
  {
    if !IsStatic(a) {
      if s.tags[a].refCount <= 1 {
        assert HeapAddresses(s.tags - {a}) == HeapAddresses(s.tags) - {a};
      } else {
        UpdateValid(s, a, s.tags[a].(refCount := s.tags[a].refCount - 1));
      }
    }
  }

  /** Deleting a heap tag keeps the store valid. */
  lemma DeleteValid(s: Store, a: int)
    requires StoreValid(s) && a in s.tags && a >= FIRST_HEAP_TAG
    ensures StoreValid(AfterDelete(s, a))
  {
    assert HeapAddresses(s.tags - {a}) == HeapAddresses(s.tags) - {a};
  }

  /** Rewriting entries and marking keep the store valid. */
  lemma VisitValid(s: Store, a: int)
    requires StoreValid(s) && a in s.tags
    ensures StoreValid(AfterVisitFromUntaggedReferrer(s, a)) && StoreValid(AfterMarkReferred(s, a))
  {
    UpdateValid(s, a, s.tags[a].(entries := VisitAll(s.tags[a].entries)));
    UpdateValid(s, a, s.tags[a].(alreadyReferred := true));
  }

  /** `merge` keeps the store valid; the merged array has at most `queries` entries, so its `uint16` size cannot wrap. */
  lemma MergeValid(s: Store, ree: int, rer: int)
    requires StoreValid(s) && ree in s.tags && rer in s.tags
    ensures StoreValid(AfterMerge(s, ree, rer).store) && AfterMerge(s, ree, rer).tag in AfterMerge(s, ree, rer).store.tags
    ensures MergedSize(s.tags[ree].entries, s.tags[rer].entries) <= s.queries
  {
    var a, b := s.tags[ree], s.tags[rer];
    MergedWellFormed(a, b, s.queries);
    AddValid(s, MergedRec(a, b));
    var c := AfterCreateMerged(s, ree, rer);
    assert c.tag != ree;
    UnrefValid(c.store, ree);
    MergedSizeIsUnion(a.entries, b.entries);
    Counting.RangeBound(Indices(a.entries) + Indices(b.entries), s.queries);
  }

  /** Appending entries that all come after the existing ones keeps the store valid. */
  lemma ExtendValid(s: Store, a: int, b: int)
    requires StoreValid(s) && a in s.tags && b in s.tags
    requires forall x, y :: x in s.tags[a].entries && y in s.tags[b].entries ==> x.index < y.index
    ensures StoreValid(AfterExtend(s, a, b))
  {
    var x, y := s.tags[a].entries, s.tags[b].entries;
    forall i, j | 0 <= i < |x| && 0 <= j < |y| ensures x[i].index < y[j].index {
      assert x[i] in x && y[j] in y;
    }
    AppendSorted(x, y);
    UpdateValid(s, a, s.tags[a].(entries := x + y));
  }

  /** The reference count of address `a`; 0 when no tag lives there. */
  function RefCount(s: Store, a: int): nat {
    if a in s.tags then s.tags[a].refCount else 0
  }

  /**
   * A change of the store from `s` to `s2` that moves one tag slot from `t`
   * to `t2` never takes away more references than the slot gave up: every
   * heap tag keeps at least its old count, minus one if the slot held it,
   * plus one if the slot now holds it.
   */
  ghost predicate Accounted(s: Store, s2: Store, t: int, t2: int) {
    forall a :: a >= FIRST_HEAP_TAG ==>
      RefCount(s2, a) >= RefCount(s, a) - (if t == a then 1 else 0) + (if t2 == a then 1 else 0)
  }

  /** The reference counts of the two stores are the same. */
  ghost predicate SameCounts(s: Store, s2: Store) {
    forall a :: RefCount(s2, a) == RefCount(s, a)
  }

  /** Accounting composes with a change that keeps every count. */
  lemma AccountedThen(s: Store, s2: Store, s3: Store, t: int, t2: int)
    requires Accounted(s, s2, t, t2) && SameCounts(s2, s3)
    ensures Accounted(s, s3, t, t2)
  {
    forall a | a >= FIRST_HEAP_TAG
      ensures RefCount(s3, a) >= RefCount(s, a) - (if t == a then 1 else 0) + (if t2 == a then 1 else 0)
    {
      assert RefCount(s3, a) == RefCount(s2, a);
    }
  }

  /** Marking and rewriting entries keep every count, and so does an unchanged slot. */
  lemma NoCountChange(s: Store, a: int, t: int)
    requires a in s.tags
    ensures SameCounts(s, AfterVisitFromUntaggedReferrer(s, a)) && SameCounts(s, AfterMarkReferred(s, a))
    ensures Accounted(s, s, t, t)
  {
  }

  /** Sharing into a slot that held no heap tag accounts for the new reference. */
  lemma ShareAccounted(s: Store, r: int, t: int)
    requires StoreValid(s) && r in s.tags && t < FIRST_HEAP_TAG
    ensures Accounted(s, AfterShare(s, r).store, t, AfterShare(s, r).tag)
  {
    var m := AfterShare(s, r);
    assert s.next !in s.tags;
    forall a | a >= FIRST_HEAP_TAG
      ensures RefCount(m.store, a) >= RefCount(s, a) - (if t == a then 1 else 0) + (if m.tag == a then 1 else 0)
    {
      if a != m.tag {
        assert RefCount(m.store, a) == RefCount(s, a);
      }
    }
  }

  /** Releasing the slot's own tag and putting a static or no tag there is accounted. */
  lemma UnrefAccounted(s: Store, t: int, t2: int)
    requires StoreValid(s) && t in s.tags && t2 < FIRST_HEAP_TAG
    ensures Accounted(s, AfterUnref(s, t), t, t2)
  {
    var s2 := AfterUnref(s, t);
    forall a | a >= FIRST_HEAP_TAG
      ensures RefCount(s2, a) >= RefCount(s, a) - (if t == a then 1 else 0) + (if t2 == a then 1 else 0)
    {
      if a != t {
        assert RefCount(s2, a) == RefCount(s, a);
      }
    }
  }

  /** Replacing the slot's tag by the merged tag is accounted. */
  lemma MergeAccounted(s: Store, ree: int, rer: int)
    requires StoreValid(s) && ree in s.tags && rer in s.tags
    ensures Accounted(s, AfterMerge(s, ree, rer).store, ree, AfterMerge(s, ree, rer).tag)
  {
    var c := AfterCreateMerged(s, ree, rer);
    var m := AfterMerge(s, ree, rer);
    assert s.next !in s.tags;
    assert c.tag != ree;
    forall a | a >= FIRST_HEAP_TAG
      ensures RefCount(m.store, a) >= RefCount(s, a) - (if ree == a then 1 else 0) + (if m.tag == a then 1 else 0)
    {
      if a == m.tag {
        assert a in m.store.tags && m.store.tags[a] == c.store.tags[a];
      } else if a != ree {
        assert RefCount(m.store, a) == RefCount(c.store, a) == RefCount(s, a);
      }
    }
  }

  /** The objects holding tag `a` in the JVM's tag slots. */
  function Holders(slots: map<ObjId, int>, a: int): set<ObjId> {
    set o | o in slots && slots[o] == a
  }

  /** The tag slot of an object; an object without an entry is untagged. */
  function SlotOf(slots: map<ObjId, int>, o: ObjId): int {
    if o in slots then slots[o] else NO_TAG
  }

  /**
   * Every slot holds a live tag, and every heap tag has at least as many
   * references as objects hold it: no object is left holding a released tag.
   */
  ghost predicate SlotsValid(s: Store, slots: map<ObjId, int>) {
    (forall o :: o in slots ==> Live(s, slots[o]))
    && forall a :: a >= FIRST_HEAP_TAG ==> RefCount(s, a) >= |Holders(slots, a)|
  }

  /** No slot holds a tag before the first operation. */
  lemma InitialSlotsValid(queries: nat)
    ensures SlotsValid(InitialStore(queries), map[])
  {
    forall a | a >= FIRST_HEAP_TAG ensures |Holders(map[], a)| == 0 {
      assert Holders(map[], a) == {};
    }
  }

  /** How the holders of one tag change when slot `o` is set to `t2`. */
  lemma HoldersUpdate(slots: map<ObjId, int>, o: ObjId, t2: int, a: int)
    requires a != NO_TAG
    ensures |Holders(slots[o := t2], a)| ==
            |Holders(slots, a)| - (if SlotOf(slots, o) == a then 1 else 0) + (if t2 == a then 1 else 0)
  {
    var h, h2 := Holders(slots, a), Holders(slots[o := t2], a);
    HoldersMembers(slots, o, t2, a);
    if o in h {
      if t2 == a {
        assert h2 == h;
      } else {
        assert h2 == h - {o};
      }
    } else {
      if t2 == a {
        assert h2 == h + {o};
      } else {
        assert h2 == h;
      }
    }
  }

  /** Who holds `a` after slot `o` is set to `t2`. */
  lemma HoldersMembers(slots: map<ObjId, int>, o: ObjId, t2: int, a: int)
    requires a != NO_TAG
    ensures (o in Holders(slots, a)) == (SlotOf(slots, o) == a)
    ensures forall p :: p in Holders(slots[o := t2], a) <==> (if p == o then t2 == a else p in Holders(slots, a))
  {
  }

  /**
   * Setting slot `o` to `t2` after an accounted change of the store keeps
   * every slot live and every count covering its holders.
   */
  lemma SlotUpdate(s: Store, s2: Store, slots: map<ObjId, int>, o: ObjId, t2: int)
    requires StoreValid(s) && StoreValid(s2) && SlotsValid(s, slots)
    requires Accounted(s, s2, SlotOf(slots, o), t2) && Live(s2, t2)
    ensures SlotsValid(s2, slots[o := t2])
  {
    var slots2 := slots[o := t2];
    var t := SlotOf(slots, o);
    assert Live(s, t);
    forall a | a >= FIRST_HEAP_TAG ensures RefCount(s2, a) >= |Holders(slots2, a)| {
      HoldersUpdate(slots, o, t2, a);
    }
    forall o2 | o2 in slots2 ensures Live(s2, slots2[o2]) {
      var b := slots2[o2];
      if o2 != o && b >= FIRST_HEAP_TAG {
        assert o2 in Holders(slots2, b);
        assert RefCount(s2, b) >= 1;
      }
    }
  }

  /** A change that keeps every count and every live tag keeps the slots valid. */
  lemma SlotsKept(s: Store, s2: Store, slots: map<ObjId, int>)
    requires SlotsValid(s, slots) && SameCounts(s, s2)
    requires forall a :: a in s.tags && a < FIRST_HEAP_TAG ==> a in s2.tags
    ensures SlotsValid(s2, slots)
  {
    forall o | o in slots ensures Live(s2, slots[o]) {
      var b := slots[o];
      if b >= FIRST_HEAP_TAG {
        assert o in Holders(slots, b);
        assert RefCount(s2, b) == RefCount(s, b) >= 1;
      }
    }
  }

  /** The live `Tag` objects and the global `tagBalance` counter, updated in place. */
  class TagStore {
    var tags: map<int, TagRec>
    var next: int
    var balance: int
    const queries: nat

    ghost function State(): Store
      reads this
    {
      Store(tags, next, balance, queries)
    }

    ghost predicate Valid()
      reads this
    {
      StoreValid(State())
    }

    constructor(queries: nat)
      requires queries <= MAX_SIZE
      ensures Valid() && State() == InitialStore(queries)
    {
      tags := map[EMPTY_TAG := BlankRec, TAG_WITH_NEW_INFO := BlankRec, HELD_OBJECT_TAG := BlankRec];
      next := FIRST_HEAP_TAG;
      balance := 0;
      this.queries := queries;
    }

    method Add(r: TagRec) returns (p: int)
      requires Valid() && WellFormed(r, queries) && r.refCount > 0
      modifies this
      ensures Valid() && State() == AfterAdd(old(State()), r).store && p == AfterAdd(old(State()), r).tag
    {
      AddValid(State(), r);
      p := next;
      tags := tags[p := r];
      next := next + 1;
      balance := balance + 1;
    }

    method Create(index: QueryIndex, state: State) returns (p: int)
      requires Valid() && index < queries
      modifies this
      ensures Valid() && State() == AfterCreate(old(State()), index, state).store
      ensures p == AfterCreate(old(State()), index, state).tag
    {
      p := Add(StartRec(index, state));
    }

    method CreateMerged(ree: int, rer: int) returns (p: int)
      requires Valid() && ree in tags && rer in tags
      modifies this
      ensures Valid() && State() == AfterCreateMerged(old(State()), ree, rer).store
      ensures p == AfterCreateMerged(old(State()), ree, rer).tag
    {
      MergedWellFormed(tags[ree], tags[rer], queries);
      p := Add(MergedRec(tags[ree], tags[rer]));
    }

    method CopyWithoutStartMarks(a: int) returns (p: int)
      requires Valid() && a in tags
      modifies this
      ensures Valid() && State() == AfterCopyWithoutStartMarks(old(State()), a).store
      ensures p == AfterCopyWithoutStartMarks(old(State()), a).tag
    {
      var es := CopyWithoutStartMarksEntries(tags[a].entries);
      p := Add(ArrayRec(es));
    }

    method CreateClassTag(id: QueryIndex) returns (p: int)
      requires Valid() && id <= queries
      modifies this
      ensures Valid() && State() == AfterCreateClassTag(old(State()), id).store
      ensures p == AfterCreateClassTag(old(State()), id).tag
    {
      p := Add(ClassRec(id));
    }

    method CreateClassStartTag(index: QueryIndex, state: State, id: QueryIndex) returns (p: int)
      requires Valid() && index < queries && id <= queries
      modifies this
      ensures Valid() && State() == AfterCreateClassStartTag(old(State()), index, state, id).store
      ensures p == AfterCreateClassStartTag(old(State()), index, state, id).tag
    {
      p := Add(ClassStartRec(index, state, id));
    }

    method Ref(a: int)
      requires Valid() && a in tags
      modifies this
      ensures Valid() && State() == AfterRef(old(State()), a)
    {
      UpdateValid(State(), a, tags[a].(refCount := tags[a].refCount + 1));
      tags := tags[a := tags[a].(refCount := tags[a].refCount + 1)];
    }

    method Share(a: int) returns (p: int)
      requires Valid() && a in tags
      modifies this
      ensures Valid() && State() == AfterShare(old(State()), a).store && p == AfterShare(old(State()), a).tag
      ensures p in tags
    {
      ShareValid(State(), a);
      if tags[a].isStartTag {
        p := CopyWithoutStartMarks(a);
      } else {
        Ref(a);
        p := a;
      }
    }

    method Unref(a: int)
      requires Valid() && a in tags
      modifies this
      ensures Valid() && State() == AfterUnref(old(State()), a)
    {
      UnrefValid(State(), a);
      if IsStatic(a) {
        return;
      }
      if tags[a].refCount <= 1 {
        tags := tags - {a};
        balance := balance - 1;
      } else {
        tags := tags[a := tags[a].(refCount := tags[a].refCount - 1)];
      }
    }

    method Delete(a: int)
      requires Valid() && a in tags && a >= FIRST_HEAP_TAG
      modifies this
      ensures Valid() && State() == AfterDelete(old(State()), a)
    {
      DeleteValid(State(), a);
      tags := tags - {a};
      balance := balance - 1;
    }

    method VisitFromUntaggedReferrer(a: int)
      requires Valid() && a in tags
      modifies this
      ensures Valid() && State() == AfterVisitFromUntaggedReferrer(old(State()), a)
    {
      VisitValid(State(), a);
      var es := AsVisitedEntries(tags[a].entries);
      tags := tags[a := tags[a].(entries := es)];
    }

    method MarkReferred(a: int)
      requires Valid() && a in tags
      modifies this
      ensures Valid() && State() == AfterMarkReferred(old(State()), a)
    {
      VisitValid(State(), a);
      tags := tags[a := tags[a].(alreadyReferred := true)];
    }

    method Merge(ree: int, rer: int) returns (p: int)
      requires Valid() && ree in tags && rer in tags
      modifies this
      ensures Valid() && State() == AfterMerge(old(State()), ree, rer).store && p == AfterMerge(old(State()), ree, rer).tag
    {
      p := CreateMerged(ree, rer);
      Unref(ree);
    }

    method Extend(a: int, b: int)
      requires Valid() && a in tags && b in tags
      requires forall x, y :: x in tags[a].entries && y in tags[b].entries ==> x.index < y.index
      modifies this
      ensures Valid() && State() == AfterExtend(old(State()), a, b)
    {
      ExtendValid(State(), a, b);
      tags := tags[a := tags[a].(entries := tags[a].entries + tags[b].entries)];
    }
  }

  /** The merge of two well-formed tags is well formed. */
  lemma MergedWellFormed(a: TagRec, b: TagRec, queries: nat)
    requires WellFormed(a, queries) && WellFormed(b, queries)
    ensures WellFormed(MergedRec(a, b), queries)
  {
    MergedSorted(a.entries, b.entries, AlreadyVisited(a.entries));
    var m := Merged(a.entries, b.entries, AlreadyVisited(a.entries));
    forall e | e in m ensures e.index < queries {
      assert e.index in Indices(m);
      assert e.index in Indices(a.entries) + Indices(b.entries);
    }
  }
}
