/**
 * Index-sorted arrays of `(query index, state)` pairs, one per tag of the
 * retained-size engine, and the two-pointer merge that combines the arrays of
 * a referee and its referrer. Indices are `uint16` (`query_size_t`), and
 * so is the size the source counts for a merge (`GetNewArraySize`); the
 * merge constructor of the model counts in a wider integer.
 */
module TagInfoArrays {
  import opened Jvmti
  import opened SizesState
  import Counting

  const MAX_SIZE: int := 0xFFFF

  type QueryIndex = i: int | 0 <= i <= MAX_SIZE

  datatype TagInfo = TagInfo(index: QueryIndex, state: State)

  /** Strictly increasing by index. */
  predicate Sorted(s: seq<TagInfo>) {
    forall i, j :: 0 <= i < j < |s| ==> s[i].index < s[j].index
  }

  function Indices(s: seq<TagInfo>): set<int> {
    set e | e in s :: e.index
  }

  /** The state stored for query `x`, if any (the first entry with that index). */
  function Find(s: seq<TagInfo>, x: int): (r: Option<State>)
    ensures r.Some? <==> x in Indices(s)
  {
    if s == [] then None
    else if s[0].index == x then Some(s[0].state)
    else
      assert Indices(s) == {s[0].index} + Indices(s[1..]);
      Find(s[1..], x)
  }

  /** The merge reads whether the referee was already visited from its first entry. */
  function AlreadyVisited(referree: seq<TagInfo>): bool {
    |referree| == 0 || IsAlreadyVisited(referree[0].state)
  }

  /** An index both arrays share: the referee's state updated from the referrer's. */
  function BothEntry(ree: TagInfo, rer: TagInfo): TagInfo {
    TagInfo(ree.index, UpdateState(ree.state, rer.state))
  }

  /** An index only the referee has: the referee is reachable from outside that query. */
  function ReferreeOnlyEntry(ree: TagInfo): TagInfo {
    TagInfo(ree.index, UpdateState(ree.state, CreateState(false, false, true)))
  }

  /** An index only the referrer has: a fresh state, reachable outside iff the referee was visited. */
  function ReferrerOnlyEntry(rer: TagInfo, visited: bool): TagInfo {
    TagInfo(rer.index, UpdateState(CreateState(false, false, visited, true), rer.state))
  }

  /** The entries the merge constructor writes, in order. */
  function Merged(ree: seq<TagInfo>, rer: seq<TagInfo>, visited: bool): seq<TagInfo>
    decreases |ree| + |rer|
  {
    if |ree| == 0 && |rer| == 0 then []
    else if |ree| == 0 then [ReferrerOnlyEntry(rer[0], visited)] + Merged(ree, rer[1..], visited)
    else if |rer| == 0 then [ReferreeOnlyEntry(ree[0])] + Merged(ree[1..], rer, visited)
    else if ree[0].index == rer[0].index then
      [BothEntry(ree[0], rer[0])] + Merged(ree[1..], rer[1..], visited)
    else if ree[0].index < rer[0].index then
      [ReferreeOnlyEntry(ree[0])] + Merged(ree[1..], rer, visited)
    else
      [ReferrerOnlyEntry(rer[0], visited)] + Merged(ree, rer[1..], visited)
  }

  /** The number of entries the merge needs, counted the way `getNewArraySize` counts. */
  function MergedSize(ree: seq<TagInfo>, rer: seq<TagInfo>): nat
    decreases |ree| + |rer|
  {
    if |ree| == 0 then |rer|
    else if |rer| == 0 then |ree|
    else if ree[0].index == rer[0].index then 1 + MergedSize(ree[1..], rer[1..])
    else if ree[0].index < rer[0].index then 1 + MergedSize(ree[1..], rer)
    else 1 + MergedSize(ree, rer[1..])
  }

  /** What a query's state becomes in the merged array, given its states in the two inputs. */
  function Combine(ree: Option<State>, rer: Option<State>, visited: bool): Option<State> {
    match (ree, rer)
    case (Some(a), Some(b)) => Some(UpdateState(a, b))
    case (Some(a), None) => Some(UpdateState(a, CreateState(false, false, true)))
    case (None, Some(b)) => Some(UpdateState(CreateState(false, false, visited, true), b))
    case (None, None) => None
  }

  lemma {:induction false} MergedLength(ree: seq<TagInfo>, rer: seq<TagInfo>, visited: bool)
    ensures |Merged(ree, rer, visited)| == MergedSize(ree, rer)
    decreases |ree| + |rer|
  {
    if |ree| == 0 && |rer| == 0 {
    } else if |ree| == 0 {
      MergedLength(ree, rer[1..], visited);
    } else if |rer| == 0 {
      MergedLength(ree[1..], rer, visited);
    } else if ree[0].index == rer[0].index {
      MergedLength(ree[1..], rer[1..], visited);
    } else if ree[0].index < rer[0].index {
      MergedLength(ree[1..], rer, visited);
    } else {
      MergedLength(ree, rer[1..], visited);
    }
  }

  lemma SortedTail(s: seq<TagInfo>)
    requires Sorted(s) && |s| > 0
    ensures Sorted(s[1..])
    ensures Indices(s) == {s[0].index} + Indices(s[1..])
    ensures forall y :: y in Indices(s[1..]) ==> s[0].index < y
  {
    assert s == [s[0]] + s[1..];
    forall y | y in Indices(s[1..]) ensures s[0].index < y {
      var e :| e in s[1..] && e.index == y;
      var k :| 0 <= k < |s[1..]| && s[1..][k] == e;
      assert s[k + 1] == e;
    }
  }

  lemma SortedCons(x: TagInfo, s: seq<TagInfo>)
    requires Sorted(s)
    requires forall y :: y in Indices(s) ==> x.index < y
    ensures Sorted([x] + s)
    ensures Indices([x] + s) == {x.index} + Indices(s)
  {
    var t := [x] + s;
    forall i, j | 0 <= i < j < |t| ensures t[i].index < t[j].index {
      assert t[j] == s[j - 1];
      assert s[j - 1].index in Indices(s);
      if i > 0 {
        assert t[i] == s[i - 1];
      }
    }
  }

  lemma SortedMin(s: seq<TagInfo>)
    requires Sorted(s) && |s| > 0
    ensures forall y :: y in Indices(s) ==> s[0].index <= y
  {
  }

  /**
   * Prepending an entry below every index of the rest keeps the array sorted;
   * its indices are the union `A + B` once that union is the entry's index
   * together with the rest's.
   */
  lemma ConsStep(x: TagInfo, rest: seq<TagInfo>, a: set<int>, b: set<int>, A: set<int>, B: set<int>)
    requires Sorted(rest) && Indices(rest) == a + b
    requires forall y :: y in a ==> x.index < y
    requires forall y :: y in b ==> x.index < y
    requires A + B == {x.index} + a + b
    ensures Sorted([x] + rest) && Indices([x] + rest) == A + B
  {
    SortedCons(x, rest);
  }

  /** The merge step that writes the referee's first entry alone. */
  lemma RefereeFirst(ree: seq<TagInfo>, rer: seq<TagInfo>, visited: bool)
    requires Sorted(ree) && Sorted(rer) && |ree| > 0
    requires |rer| == 0 || ree[0].index < rer[0].index
    requires Sorted(Merged(ree[1..], rer, visited))
    requires Indices(Merged(ree[1..], rer, visited)) == Indices(ree[1..]) + Indices(rer)
    ensures Merged(ree, rer, visited) == [ReferreeOnlyEntry(ree[0])] + Merged(ree[1..], rer, visited)
    ensures Sorted(Merged(ree, rer, visited))
    ensures Indices(Merged(ree, rer, visited)) == Indices(ree) + Indices(rer)
  {
    SortedTail(ree);
    if |rer| > 0 {
      SortedMin(rer);
    }
    ConsStep(ReferreeOnlyEntry(ree[0]), Merged(ree[1..], rer, visited),
             Indices(ree[1..]), Indices(rer), Indices(ree), Indices(rer));
  }

  /** The merge step that writes the referrer's first entry alone. */
  lemma ReferrerFirst(ree: seq<TagInfo>, rer: seq<TagInfo>, visited: bool)
    requires Sorted(ree) && Sorted(rer) && |rer| > 0
    requires |ree| == 0 || rer[0].index < ree[0].index
    requires Sorted(Merged(ree, rer[1..], visited))
    requires Indices(Merged(ree, rer[1..], visited)) == Indices(ree) + Indices(rer[1..])
    ensures Merged(ree, rer, visited) == [ReferrerOnlyEntry(rer[0], visited)] + Merged(ree, rer[1..], visited)
    ensures Sorted(Merged(ree, rer, visited))
    ensures Indices(Merged(ree, rer, visited)) == Indices(ree) + Indices(rer)
  {
    SortedTail(rer);
    if |ree| > 0 {
      SortedMin(ree);
    }
    ConsStep(ReferrerOnlyEntry(rer[0], visited), Merged(ree, rer[1..], visited),
             Indices(ree), Indices(rer[1..]), Indices(ree), Indices(rer));
  }

  /** The merge step for an index both arrays hold first. */
  lemma BothFirst(ree: seq<TagInfo>, rer: seq<TagInfo>, visited: bool)
    requires Sorted(ree) && Sorted(rer) && |ree| > 0 && |rer| > 0 && ree[0].index == rer[0].index
    requires Sorted(Merged(ree[1..], rer[1..], visited))
    requires Indices(Merged(ree[1..], rer[1..], visited)) == Indices(ree[1..]) + Indices(rer[1..])
    ensures Merged(ree, rer, visited) == [BothEntry(ree[0], rer[0])] + Merged(ree[1..], rer[1..], visited)
    ensures Sorted(Merged(ree, rer, visited))
    ensures Indices(Merged(ree, rer, visited)) == Indices(ree) + Indices(rer)
  {
    SortedTail(ree);
    SortedTail(rer);
    ConsStep(BothEntry(ree[0], rer[0]), Merged(ree[1..], rer[1..], visited),
             Indices(ree[1..]), Indices(rer[1..]), Indices(ree), Indices(rer));
  }

  /** The merge of two sorted arrays is sorted and holds exactly the union of their indices. */
  lemma {:induction false} MergedSorted(ree: seq<TagInfo>, rer: seq<TagInfo>, visited: bool)
    requires Sorted(ree) && Sorted(rer)
    ensures Sorted(Merged(ree, rer, visited))
    ensures Indices(Merged(ree, rer, visited)) == Indices(ree) + Indices(rer)
    decreases |ree| + |rer|
  {
    if |ree| == 0 && |rer| == 0 {
      assert Indices(Merged(ree, rer, visited)) == {} == Indices(ree) == Indices(rer);
    } else if |rer| == 0 || (|ree| > 0 && ree[0].index < rer[0].index) {
      SortedTail(ree);
      MergedSorted(ree[1..], rer, visited);
      RefereeFirst(ree, rer, visited);
    } else if |ree| == 0 || rer[0].index < ree[0].index {
      SortedTail(rer);
      MergedSorted(ree, rer[1..], visited);
      ReferrerFirst(ree, rer, visited);
    } else {
      SortedTail(ree);
      SortedTail(rer);
      MergedSorted(ree[1..], rer[1..], visited);
      BothFirst(ree, rer, visited);
    }
  }

  lemma {:induction false} SortedCard(s: seq<TagInfo>)
    requires Sorted(s)
    ensures |Indices(s)| == |s|
  {
    if |s| > 0 {
      SortedTail(s);
      SortedCard(s[1..]);
    } else {
      assert Indices(s) == {};
    }
  }

  /** For sorted inputs, `getNewArraySize` counts the distinct indices of the union. */
  lemma MergedSizeIsUnion(ree: seq<TagInfo>, rer: seq<TagInfo>)
    requires Sorted(ree) && Sorted(rer)
    ensures MergedSize(ree, rer) == |Indices(ree) + Indices(rer)|
    ensures MergedSize(ree, rer) <= MAX_SIZE + 1
  {
    MergedSorted(ree, rer, false);
    MergedLength(ree, rer, false);
    SortedCard(Merged(ree, rer, false));
    Counting.RangeBound(Indices(ree) + Indices(rer), MAX_SIZE + 1);
  }

  lemma FindAbsent(s: seq<TagInfo>, x: int)
    requires x !in Indices(s)
    ensures Find(s, x) == None
  {
  }

  /** Every query's state in the merged array is the combination of its two input states. */
  lemma {:induction false} MergedFind(ree: seq<TagInfo>, rer: seq<TagInfo>, visited: bool, x: int)
    requires Sorted(ree) && Sorted(rer)
    ensures Find(Merged(ree, rer, visited), x) == Combine(Find(ree, x), Find(rer, x), visited)
    decreases |ree| + |rer|
  {
    if |ree| == 0 && |rer| == 0 {
    } else if |ree| == 0 {
      SortedTail(rer);
      MergedFind(ree, rer[1..], visited, x);
    } else if |rer| == 0 {
      SortedTail(ree);
      MergedFind(ree[1..], rer, visited, x);
    } else if ree[0].index == rer[0].index {
      SortedTail(ree);
      SortedTail(rer);
      MergedFind(ree[1..], rer[1..], visited, x);
    } else if ree[0].index < rer[0].index {
      SortedTail(ree);
      SortedTail(rer);
      MergedFind(ree[1..], rer, visited, x);
      if x == ree[0].index {
        FindAbsent(rer, x);
      }
    } else {
      SortedTail(ree);
      SortedTail(rer);
      MergedFind(ree, rer[1..], visited, x);
      if x == rer[0].index {
        FindAbsent(ree, x);
      }
    }
  }

  /**
   * Appending entries whose indices all exceed the existing ones keeps the
   * array sorted; this is how `extend` is used when objects are numbered in
   * input order.
   */
  lemma AppendSorted(a: seq<TagInfo>, b: seq<TagInfo>)
    requires Sorted(a) && Sorted(b)
    requires forall i, j :: 0 <= i < |a| && 0 <= j < |b| ==> a[i].index < b[j].index
    ensures Sorted(a + b)
  {
  }

  lemma MergedStep(ree: seq<TagInfo>, rer: seq<TagInfo>, visited: bool)
    requires |ree| > 0 || |rer| > 0
    ensures |ree| == 0 ==> Merged(ree, rer, visited) == [ReferrerOnlyEntry(rer[0], visited)] + Merged(ree, rer[1..], visited)
    ensures |rer| == 0 ==> Merged(ree, rer, visited) == [ReferreeOnlyEntry(ree[0])] + Merged(ree[1..], rer, visited)
    ensures |ree| > 0 && |rer| > 0 && ree[0].index == rer[0].index ==>
              Merged(ree, rer, visited) == [BothEntry(ree[0], rer[0])] + Merged(ree[1..], rer[1..], visited)
    ensures |ree| > 0 && |rer| > 0 && ree[0].index < rer[0].index ==>
              Merged(ree, rer, visited) == [ReferreeOnlyEntry(ree[0])] + Merged(ree[1..], rer, visited)
    ensures |ree| > 0 && |rer| > 0 && ree[0].index > rer[0].index ==>
              Merged(ree, rer, visited) == [ReferrerOnlyEntry(rer[0], visited)] + Merged(ree, rer[1..], visited)
  {
  }

  lemma {:induction false} MergedSizeStep(ree: seq<TagInfo>, rer: seq<TagInfo>)
    requires |ree| > 0 && |rer| > 0
    ensures ree[0].index == rer[0].index ==> MergedSize(ree, rer) == 1 + MergedSize(ree[1..], rer[1..])
    ensures ree[0].index < rer[0].index ==> MergedSize(ree, rer) == 1 + MergedSize(ree[1..], rer)
    ensures ree[0].index > rer[0].index ==> MergedSize(ree, rer) == 1 + MergedSize(ree, rer[1..])
  {
  }

  /**
   * A dynamically allocated array of entries and its `uint16` size.
   */
  class TagInfoArray {
    var data: array<TagInfo>
    var size: nat

    ghost predicate Valid()
      reads this
    {
      size == data.Length
    }

    ghost function Elements(): seq<TagInfo>
      reads this, data
    {
      data[..]
    }

    /** An empty array (no storage). */
    constructor Empty()
      ensures Valid() && Elements() == [] && fresh(data)
    {
      data := new TagInfo[0];
      size := 0;
    }

    /** A one-entry array. */
    constructor Single(index: QueryIndex, state: State)
      ensures Valid() && Elements() == [TagInfo(index, state)] && fresh(data)
    {
      data := new TagInfo[1] [TagInfo(index, state)];
      size := 1;
    }

    /** The copy constructor: a fresh array with the same entries. */
    constructor Copy(other: TagInfoArray)
      requires other.Valid()
      ensures Valid() && fresh(data) && Elements() == other.Elements()
    {
      var a := new TagInfo[other.size];
      var i := 0;
      while i < other.size
        invariant 0 <= i <= other.size
        invariant a[..i] == other.data[..i]
      {
        a[i] := other.data[i];
        i := i + 1;
      }
      data := a;
      size := other.size;
    }

    /**
     * The move constructor takes over the storage of `other`. The moved-from
     * array is left with no storage (`release` nulls its pointer) but keeps
     * its old size.
     */
    constructor Move(other: TagInfoArray)
      requires other.Valid()
      modifies other
      ensures Valid() && data == old(other.data) && size == old(other.size)
      ensures Elements() == old(other.Elements())
      ensures other.data.Length == 0 && other.size == old(other.size)
    {
      data := other.data;
      size := other.size;
      other.data := new TagInfo[0];
    }

    /**
     * The merge constructor, corrected: the entries of `Merged`, in a fresh
     * array of as many entries as the merge writes, counted without the
     * `uint16` wrap of `getNewArraySize` (`FullMergeWraps`).
     */
    constructor Merge(referree: TagInfoArray, referrer: TagInfoArray)
      requires referree.Valid() && referrer.Valid()
      ensures Valid() && fresh(data) && size == MergedSize(referree.Elements(), referrer.Elements())
      ensures Elements() == Merged(referree.Elements(), referrer.Elements(), AlreadyVisited(referree.Elements()))
    {
      var n := CountMergedEntries(referree, referrer);
      var a := MergeEntries(referree.data, referrer.data, n);
      data := a;
      size := n;
    }

    /** Appends the entries of `other` after the existing ones. */
    method Extend(other: TagInfoArray)
      requires Valid() && other.Valid()
      requires size + other.size <= MAX_SIZE
      modifies this
      ensures Valid() && fresh(data)
      ensures Elements() == old(Elements()) + old(other.Elements())
      ensures size == old(size) + old(other.size)
    {
      var d, n, e, m := data, size, other.data, other.size;
      var a := new TagInfo[n + m];
      var i := 0;
      while i < n
        invariant 0 <= i <= n
        invariant forall k :: 0 <= k < i ==> a[k] == d[k]
      {
        a[i] := d[i];
        i := i + 1;
      }
      i := 0;
      while i < m
        invariant 0 <= i <= m
        invariant forall k :: 0 <= k < n ==> a[k] == d[k]
        invariant forall k :: 0 <= k < i ==> a[n + k] == e[k]
      {
        a[n + i] := e[i];
        i := i + 1;
      }
      assert a[..] == d[..] + e[..];
      size := n + m;
      data := a;
    }
  }

  /** The three two-pointer loops of the merge constructor, writing into a fresh array of `n` entries. */
  method MergeEntries(ree: array<TagInfo>, rer: array<TagInfo>, n: nat) returns (a: array<TagInfo>)
    requires n == MergedSize(ree[..], rer[..])
    ensures fresh(a) && a.Length == n
    ensures a[..] == Merged(ree[..], rer[..], AlreadyVisited(ree[..]))
  {
    a := new TagInfo[n];
    var visited := ree.Length == 0 || IsAlreadyVisited(ree[0].state);
    ghost var m := Merged(ree[..], rer[..], visited);
    MergedLength(ree[..], rer[..], visited);
    assert ree[0..] == ree[..] && rer[0..] == rer[..];
    var i, j, k := MergeCommon(ree, rer, a, visited, m);
    i, j, k := MergeReferrerTail(ree, rer, a, visited, m, i, j, k);
    i, j, k := MergeReferreeTail(ree, rer, a, visited, m, i, j, k);
    assert ree[i..] == [] && rer[j..] == [];
    assert k == |m|;
  }

  /** The first loop: both arrays still have entries. */
  method MergeCommon(ree: array<TagInfo>, rer: array<TagInfo>, a: array<TagInfo>, visited: bool,
                     ghost m: seq<TagInfo>) returns (i: nat, j: nat, k: nat)
    requires a != ree && a != rer && a.Length == |m|
    requires Merged(ree[..], rer[..], visited) == m
    modifies a
    ensures i <= ree.Length && j <= rer.Length && k <= a.Length
    ensures i == ree.Length || j == rer.Length
    ensures forall t :: 0 <= t < k ==> a[t] == m[t]
    ensures Merged(ree[i..], rer[j..], visited) == m[k..]
  {
    i, j, k := 0, 0, 0;
    assert ree[0..] == ree[..] && rer[0..] == rer[..];
    while i < ree.Length && j < rer.Length
      invariant 0 <= i <= ree.Length && 0 <= j <= rer.Length && 0 <= k <= a.Length
      invariant forall t :: 0 <= t < k ==> a[t] == m[t]
      invariant Merged(ree[i..], rer[j..], visited) == m[k..]
      decreases ree.Length - i + rer.Length - j
    {
      MergeLoopStep(ree[..], rer[..], i, j, k, m, visited);
      if ree[i].index == rer[j].index {
        a[k] := BothEntry(ree[i], rer[j]);
        i, j := i + 1, j + 1;
      } else if ree[i].index < rer[j].index {
        a[k] := ReferreeOnlyEntry(ree[i]);
        i := i + 1;
      } else {
        a[k] := ReferrerOnlyEntry(rer[j], visited);
        j := j + 1;
      }
      k := k + 1;
    }
  }

  /** The second loop: what is left of the referrer. */
  method MergeReferrerTail(ree: array<TagInfo>, rer: array<TagInfo>, a: array<TagInfo>, visited: bool,
                           ghost m: seq<TagInfo>, i0: nat, j0: nat, k0: nat) returns (i: nat, j: nat, k: nat)
    requires a != ree && a != rer && a.Length == |m|
    requires i0 <= ree.Length && j0 <= rer.Length && k0 <= a.Length
    requires i0 == ree.Length || j0 == rer.Length
    requires forall t :: 0 <= t < k0 ==> a[t] == m[t]
    requires Merged(ree[i0..], rer[j0..], visited) == m[k0..]
    modifies a
    ensures i == i0 && j == rer.Length && k <= a.Length
    ensures forall t :: 0 <= t < k ==> a[t] == m[t]
    ensures Merged(ree[i..], rer[j..], visited) == m[k..]
  {
    i, j, k := i0, j0, k0;
    while j < rer.Length
      invariant i == i0 && (i == ree.Length || j == rer.Length)
      invariant j0 <= j <= rer.Length && 0 <= k <= a.Length
      invariant forall t :: 0 <= t < k ==> a[t] == m[t]
      invariant Merged(ree[i..], rer[j..], visited) == m[k..]
    {
      MergeLoopStep(ree[..], rer[..], i, j, k, m, visited);
      a[k] := ReferrerOnlyEntry(rer[j], visited);
      j, k := j + 1, k + 1;
    }
  }

  /** The third loop: what is left of the referee. */
  method MergeReferreeTail(ree: array<TagInfo>, rer: array<TagInfo>, a: array<TagInfo>, visited: bool,
                           ghost m: seq<TagInfo>, i0: nat, j0: nat, k0: nat) returns (i: nat, j: nat, k: nat)
    requires a != ree && a != rer && a.Length == |m|
    requires i0 <= ree.Length && j0 == rer.Length && k0 <= a.Length
    requires forall t :: 0 <= t < k0 ==> a[t] == m[t]
    requires Merged(ree[i0..], rer[j0..], visited) == m[k0..]
    modifies a
    ensures i == ree.Length && j == rer.Length && k == a.Length
    ensures forall t :: 0 <= t < k ==> a[t] == m[t]
  {
    i, j, k := i0, j0, k0;
    while i < ree.Length
      invariant j == rer.Length && i0 <= i <= ree.Length && 0 <= k <= a.Length
      invariant forall t :: 0 <= t < k ==> a[t] == m[t]
      invariant Merged(ree[i..], rer[j..], visited) == m[k..]
    {
      MergeLoopStep(ree[..], rer[..], i, j, k, m, visited);
      a[k] := ReferreeOnlyEntry(ree[i]);
      i, k := i + 1, k + 1;
    }
    assert ree[i..] == [] && rer[j..] == [];
  }

  /** One step of the two-pointer loops: the next entry and what remains to be written. */
  lemma MergeLoopStep(ree: seq<TagInfo>, rer: seq<TagInfo>, i: nat, j: nat, k: nat, m: seq<TagInfo>, visited: bool)
    requires i <= |ree| && j <= |rer| && (i < |ree| || j < |rer|) && k <= |m|
    requires Merged(ree[i..], rer[j..], visited) == m[k..]
    ensures k < |m|
    ensures i == |ree| ==>
              m[k] == ReferrerOnlyEntry(rer[j], visited) && Merged(ree[i..], rer[j + 1..], visited) == m[k + 1..]
    ensures j == |rer| ==>
              m[k] == ReferreeOnlyEntry(ree[i]) && Merged(ree[i + 1..], rer[j..], visited) == m[k + 1..]
    ensures i < |ree| && j < |rer| && ree[i].index == rer[j].index ==>
              m[k] == BothEntry(ree[i], rer[j]) && Merged(ree[i + 1..], rer[j + 1..], visited) == m[k + 1..]
    ensures i < |ree| && j < |rer| && ree[i].index < rer[j].index ==>
              m[k] == ReferreeOnlyEntry(ree[i]) && Merged(ree[i + 1..], rer[j..], visited) == m[k + 1..]
    ensures i < |ree| && j < |rer| && ree[i].index > rer[j].index ==>
              m[k] == ReferrerOnlyEntry(rer[j], visited) && Merged(ree[i..], rer[j + 1..], visited) == m[k + 1..]
  {
    MergedStep(ree[i..], rer[j..], visited);
    if i < |ree| {
      assert ree[i..][1..] == ree[i + 1..];
    }
    if j < |rer| {
      assert rer[j..][1..] == rer[j + 1..];
    }
    assert m[k..][1..] == m[k + 1..];
  }

  /** `n` entries with the consecutive indices from `lo`, all in state `st`. */
  function Block(lo: nat, n: nat, st: State): (r: seq<TagInfo>)
    requires lo + n <= MAX_SIZE + 1
    ensures |r| == n && Sorted(r)
    ensures forall e :: e in r ==> lo <= e.index < lo + n
  {
    seq(n, i requires 0 <= i < n => TagInfo(lo + i, st))
  }

  /**
   * Two arrays of 32768 entries each, the first with the indices below
   * 32768 and the second with the rest: their merge writes 65536 entries,
   * while `getNewArraySize` counts them modulo 2^16, which is 0.
   */
  lemma FullMergeWraps(st: State)
    ensures var ree, rer := Block(0, 32768, st), Block(32768, 32768, st);
            && |ree| <= MAX_SIZE && |rer| <= MAX_SIZE
            && |Merged(ree, rer, AlreadyVisited(ree))| == MergedSize(ree, rer) == MAX_SIZE + 1
            && MergedSize(ree, rer) % (MAX_SIZE + 1) == 0
  {
    var ree, rer := Block(0, 32768, st), Block(32768, 32768, st);
    MergedSizeIsUnion(ree, rer);
    MergedLength(ree, rer, AlreadyVisited(ree));
    SortedCard(ree);
    SortedCard(rer);
    assert Indices(ree) * Indices(rer) == {} by {
      forall x | x in Indices(ree) ensures x !in Indices(rer) {
        var e :| e in ree && e.index == x;
      }
    }
  }

  lemma ModAdd(c: nat, d: nat)
    ensures (c % (MAX_SIZE + 1) + d) % (MAX_SIZE + 1) == (c + d) % (MAX_SIZE + 1)
  {
  }

  /**
   * `getNewArraySize`: counts the entries of the merge with a two-pointer
   * loop, in `uint16` arithmetic.
   */
  method GetNewArraySize(referree: TagInfoArray, referrer: TagInfoArray) returns (n: nat)
    requires referree.Valid() && referrer.Valid()
    ensures n == MergedSize(referree.Elements(), referrer.Elements()) % (MAX_SIZE + 1)
  {
    var ree, rer := referree.data, referrer.data;
    var i, j := 0, 0;
    n := 0;
    ghost var count := 0;
    while i < ree.Length && j < rer.Length
      invariant 0 <= i <= ree.Length && 0 <= j <= rer.Length
      invariant n == count % (MAX_SIZE + 1)
      invariant count + MergedSize(ree[i..], rer[j..]) == MergedSize(ree[..], rer[..])
      decreases ree.Length - i + rer.Length - j
    {
      assert ree[i..][1..] == ree[i + 1..] && rer[j..][1..] == rer[j + 1..];
      MergedSizeStep(ree[i..], rer[j..]);
      if ree[i].index == rer[j].index {
        i, j := i + 1, j + 1;
      } else if ree[i].index < rer[j].index {
        i := i + 1;
      } else {
        j := j + 1;
      }
      ModAdd(count, 1);
      n := (n + 1) % (MAX_SIZE + 1);
      count := count + 1;
    }
    if i < ree.Length {
      ModAdd(count, ree.Length - i);
      n := (n + (ree.Length - i)) % (MAX_SIZE + 1);
    } else if j < rer.Length {
      ModAdd(count, rer.Length - j);
      n := (n + (rer.Length - j)) % (MAX_SIZE + 1);
    }
  }

  /**
   * The count of `getNewArraySize` in an integer wide enough for every
   * merge: the same two-pointer loop without the `uint16` wrap.
   */
  method CountMergedEntries(referree: TagInfoArray, referrer: TagInfoArray) returns (n: nat)
    requires referree.Valid() && referrer.Valid()
    ensures n == MergedSize(referree.Elements(), referrer.Elements())
  {
    var ree, rer := referree.data, referrer.data;
    var i, j := 0, 0;
    n := 0;
    while i < ree.Length && j < rer.Length
      invariant 0 <= i <= ree.Length && 0 <= j <= rer.Length
      invariant n + MergedSize(ree[i..], rer[j..]) == MergedSize(ree[..], rer[..])
      decreases ree.Length - i + rer.Length - j
    {
      assert ree[i..][1..] == ree[i + 1..] && rer[j..][1..] == rer[j + 1..];
      MergedSizeStep(ree[i..], rer[j..]);
      if ree[i].index == rer[j].index {
        i, j := i + 1, j + 1;
      } else if ree[i].index < rer[j].index {
        i := i + 1;
      } else {
        j := j + 1;
      }
      n := n + 1;
    }
    n := n + (ree.Length - i) + (rer.Length - j);
  }
}
