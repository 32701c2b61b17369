/**
 * The Java result of the GC-root path finder: the objects, for each of them
 * the back-references it keeps (the index of the referrer in the objects,
 * or -1 for a root; the reference kind; the reference details), and whether
 * it is only weakly or softly reachable.
 */
module PathsResult {
  import opened Jvmti
  import Infos
  import PathsToClosestGcRoots

  /** `MEMORY_AGENT_TRUNCATE_REFERENCE`: the kind of the record that marks a cut path. */
  const TRUNCATE_REFERENCE: int := 42

  /** The three parallel arrays `createLinksInfos` fills for one object. */
  datatype Links = Links(prevIndices: seq<int>, kinds: seq<int>, infos: seq<Infos.Reported>)

  /** The result array: `getEmptyArray()` (three null slots), or objects, links and weak flags. */
  datatype Answer = EmptyArray | Answer(objects: seq<ObjId>, links: seq<Links>, weakSoftReachable: seq<bool>)

  /** `getTagToIndex`: every tag of `objectToTag` to its position; a later position overwrites. */
  function TagToIndex(objectToTag: seq<(ObjId, int)>): (m: map<int, int>)
    decreases |objectToTag|
  {
    if objectToTag == [] then map[]
    else
      var n := |objectToTag| - 1;
      TagToIndex(objectToTag[..n])[objectToTag[n].1 := n]
  }

  /** `m` maps the tags of `objectToTag`, and only those, each to the last position that holds it. */
  ghost predicate LastPositions(objectToTag: seq<(ObjId, int)>, m: map<int, int>) {
    && (forall t :: t in m <==> exists i :: 0 <= i < |objectToTag| && objectToTag[i].1 == t)
    && (forall t :: t in m ==> 0 <= m[t] < |objectToTag| && objectToTag[m[t]].1 == t)
    && (forall t, j :: t in m && m[t] < j < |objectToTag| ==> objectToTag[j].1 != t)
  }

  /** Every tag of `objectToTag` maps to the last position that holds it, and no other tag is mapped. */
  lemma {:induction false} TagToIndexLast(objectToTag: seq<(ObjId, int)>)
    ensures LastPositions(objectToTag, TagToIndex(objectToTag))
    decreases |objectToTag|
  {
    if objectToTag != [] {
      var n := |objectToTag| - 1;
      var front := objectToTag[..n];
      TagToIndexLast(front);
      var m0, tn := TagToIndex(front), objectToTag[n].1;
      var m := TagToIndex(objectToTag);
      assert m == m0[tn := n];
      assert LastPositions(front, m0);
      forall t | t in m ensures exists i :: 0 <= i < |objectToTag| && objectToTag[i].1 == t {
        if t == tn {
          assert objectToTag[n].1 == t;
        } else {
          var i :| 0 <= i < n && front[i].1 == t;
          assert objectToTag[i].1 == t;
        }
      }
      forall t | exists i :: 0 <= i < |objectToTag| && objectToTag[i].1 == t ensures t in m {
        var i :| 0 <= i < |objectToTag| && objectToTag[i].1 == t;
        if i < n {
          assert front[i].1 == t;
        }
      }
      forall t | t in m ensures 0 <= m[t] < |objectToTag| && objectToTag[m[t]].1 == t {
        if t != tn {
          assert front[m0[t]] == objectToTag[m0[t]];
        }
      }
      forall t, j | t in m && m[t] < j < |objectToTag| ensures objectToTag[j].1 != t {
        if t != tn && j < n {
          assert front[j] == objectToTag[j];
        }
      }
    }
  }

  /** The loop of `getTagToIndex`. */
  method GetTagToIndex(objectToTag: seq<(ObjId, int)>) returns (m: map<int, int>)
    ensures m == TagToIndex(objectToTag)
  {
    m := map[];
    for i := 0 to |objectToTag|
      invariant m == TagToIndex(objectToTag[..i])
    {
      assert objectToTag[..i + 1][..i] == objectToTag[..i];
      m := m[objectToTag[i].1 := i];
    }
    assert objectToTag[..|objectToTag|] == objectToTag;
  }

  /** The back-references `createLinksInfos` keeps: roots and those whose referrer is in the result. */
  function Kept(tagToIndex: map<int, int>, infos: seq<Infos.ReferenceInfo>): (r: seq<Infos.ReferenceInfo>)
    ensures |r| <= |infos|
    ensures forall x :: x in r <==> x in infos && (x.tag == -1 || x.tag in tagToIndex)
    decreases |infos|
  {
    if infos == [] then []
    else
      var n := |infos| - 1;
      var front := Kept(tagToIndex, infos[..n]);
      assert forall x :: x in infos <==> x in infos[..n] || x == infos[n];
      if infos[n].tag != -1 && infos[n].tag !in tagToIndex then front else front + [infos[n]]
  }

  /** The index a kept back-reference points at. */
  function PrevIndex(tagToIndex: map<int, int>, x: Infos.ReferenceInfo): int {
    if x.tag == -1 || x.tag !in tagToIndex then -1 else tagToIndex[x.tag]
  }

  /** `createLinksInfos`: the kept back-references, in order, as three parallel arrays. */
  function LinksInfos(tagToIndex: map<int, int>, infos: seq<Infos.ReferenceInfo>): (r: Links)
    decreases |infos|
  {
    if infos == [] then Links([], [], [])
    else
      var n := |infos| - 1;
      var x := infos[n];
      var f := LinksInfos(tagToIndex, infos[..n]);
      if x.tag != -1 && x.tag !in tagToIndex then f
      else Links(f.prevIndices + [PrevIndex(tagToIndex, x)], f.kinds + [x.kind], f.infos + [Infos.GetReferenceInfo(x)])
  }

  /** The three arrays are equally long and describe the kept back-references position by position. */
  lemma {:induction false} LinksDescribeKept(tagToIndex: map<int, int>, infos: seq<Infos.ReferenceInfo>)
    ensures var r := LinksInfos(tagToIndex, infos);
            var k := Kept(tagToIndex, infos);
            && |r.prevIndices| == |r.kinds| == |r.infos| == |k|
            && forall i :: 0 <= i < |k| ==>
                 && r.prevIndices[i] == PrevIndex(tagToIndex, k[i])
                 && r.kinds[i] == k[i].kind
                 && r.infos[i] == Infos.GetReferenceInfo(k[i])
    decreases |infos|
  {
    if infos != [] {
      LinksDescribeKept(tagToIndex, infos[..|infos| - 1]);
    }
  }

  /** The loop of `createLinksInfos`. */
  method CreateLinksInfos(tagToIndex: map<int, int>, infos: seq<Infos.ReferenceInfo>) returns (r: Links)
    ensures r == LinksInfos(tagToIndex, infos)
  {
    var prevIndices: seq<int> := [];
    var kinds: seq<int> := [];
    var refInfos: seq<Infos.Reported> := [];
    for i := 0 to |infos|
      invariant Links(prevIndices, kinds, refInfos) == LinksInfos(tagToIndex, infos[..i])
    {
      assert infos[..i + 1][..i] == infos[..i];
      var info := infos[i];
      if info.tag != -1 && info.tag !in tagToIndex {
        continue;
      }
      prevIndices := prevIndices + [if info.tag == -1 then -1 else tagToIndex[info.tag]];
      kinds := kinds + [info.kind];
      refInfos := refInfos + [Infos.GetReferenceInfo(info)];
    }
    assert infos[..|infos|] == infos;
    r := Links(prevIndices, kinds, refInfos);
  }

  /**
   * Every index `createLinksInfos` emits is -1 (a root) or the position of
   * an object of the result, and the referrer there holds the recorded tag.
   */
  lemma LinksIndicesValid(objectToTag: seq<(ObjId, int)>, infos: seq<Infos.ReferenceInfo>, k: int)
    requires 0 <= k < |LinksInfos(TagToIndex(objectToTag), infos).prevIndices|
    ensures var m := TagToIndex(objectToTag);
            var kept := Kept(m, infos);
            var i := LinksInfos(m, infos).prevIndices[k];
            k < |kept| && (i == -1 <==> kept[k].tag == -1)
            && (i != -1 ==> 0 <= i < |objectToTag| && objectToTag[i].1 == kept[k].tag)
  {
    var m := TagToIndex(objectToTag);
    var kept := Kept(m, infos);
    LinksDescribeKept(m, infos);
    TagToIndexLast(objectToTag);
    assert kept[k] in kept;
  }

  /**
   * The answer `createResultObject` builds for `objectToTag`: each object,
   * the links of its tag's records in `infosOf` (none when the tag has no
   * entry), and its tag's weak flag.
   */
  function ResultObject(objectToTag: seq<(ObjId, int)>, infosOf: map<int, seq<Infos.ReferenceInfo>>,
                        h: PathsToClosestGcRoots.Heap): Answer
  {
    var tagToIndex := TagToIndex(objectToTag);
    Answer(seq(|objectToTag|, i requires 0 <= i < |objectToTag| => objectToTag[i].0),
           seq(|objectToTag|, i requires 0 <= i < |objectToTag| =>
                 LinksInfos(tagToIndex, if objectToTag[i].1 in infosOf then infosOf[objectToTag[i].1] else [])),
           seq(|objectToTag|, i requires 0 <= i < |objectToTag| => PathsToClosestGcRoots.WeakTag(h, objectToTag[i].1)))
  }

  /**
   * `createResultObject`, one entry per object JVMTI returned: the object,
   * its links built from `infosOf` (either the back-references of its tag
   * or the collected path records), and its tag's weak flag.
   */
  method CreateResultObject(objectToTag: seq<(ObjId, int)>, infosOf: map<int, seq<Infos.ReferenceInfo>>,
                            h: PathsToClosestGcRoots.Heap)
    returns (r: Answer)
    requires forall p :: p in objectToTag ==> p.1 in infosOf
    ensures r.Answer? && |r.objects| == |r.links| == |r.weakSoftReachable| == |objectToTag|
    ensures forall i :: 0 <= i < |objectToTag| ==>
              && r.objects[i] == objectToTag[i].0
              && r.links[i] == LinksInfos(TagToIndex(objectToTag), infosOf[objectToTag[i].1])
              && r.weakSoftReachable[i] == PathsToClosestGcRoots.WeakTag(h, objectToTag[i].1)
    ensures r == ResultObject(objectToTag, infosOf, h)
  {
    var tagToIndex := GetTagToIndex(objectToTag);
    var objects: seq<ObjId> := [];
    var links: seq<Links> := [];
    var weak: seq<bool> := [];
    for i := 0 to |objectToTag|
      invariant |objects| == |links| == |weak| == i
      invariant tagToIndex == TagToIndex(objectToTag)
      invariant forall j :: 0 <= j < i ==> objects[j] == objectToTag[j].0
      invariant forall j :: 0 <= j < i ==> links[j] == LinksInfos(tagToIndex, infosOf[objectToTag[j].1])
      invariant forall j :: 0 <= j < i ==> weak[j] == PathsToClosestGcRoots.WeakTag(h, objectToTag[j].1)
    {
      var tag := objectToTag[i].1;
      objects := objects + [objectToTag[i].0];
      var l := CreateLinksInfos(tagToIndex, infosOf[tag]);
      links := links + [l];
      weak := weak + [PathsToClosestGcRoots.WeakTag(h, tag)];
    }
    r := Answer(objects, links, weak);
    ghost var spec := ResultObject(objectToTag, infosOf, h);
    assert objects == spec.objects && links == spec.links && weak == spec.weakSoftReachable;
  }

  /** The answer for start alone lists objects of `objs` tagged start, with records from `infosOf`. */
  lemma StartAnswerObjects(h: PathsToClosestGcRoots.Heap, objs: seq<ObjId>, start: int,
                           infosOf: map<int, seq<Infos.ReferenceInfo>>)
    ensures var r := ResultObject(GetObjectToTag(h, objs, [start]), infosOf, h);
            && r.Answer? && |r.objects| == |r.links| == |r.weakSoftReachable|
            && forall i :: 0 <= i < |r.objects| ==> r.objects[i] in objs && PathsToClosestGcRoots.TagOf(h, r.objects[i]) == start
  {
    var xs := GetObjectToTag(h, objs, [start]);
    var r := ResultObject(xs, infosOf, h);
    forall i | 0 <= i < |r.objects|
      ensures r.objects[i] in objs && PathsToClosestGcRoots.TagOf(h, r.objects[i]) == start
    {
      assert r.objects[i] == xs[i].0 && xs[i] in xs;
    }
  }

  /** The answer for the assembled `nodes` lists objects of `objs` whose tag is a node. */
  lemma PathAnswerObjects(h: PathsToClosestGcRoots.Heap, objs: seq<ObjId>, nodes: seq<(int, int)>,
                          infosOf: map<int, seq<Infos.ReferenceInfo>>)
    ensures var r := ResultObject(SortByPath(GetObjectToTag(h, objs, NodeTags(nodes)), TagToPathNumber(nodes)), infosOf, h);
            && r.Answer? && |r.objects| == |r.links| == |r.weakSoftReachable|
            && forall i :: 0 <= i < |r.objects| ==>
                 && r.objects[i] in objs
                 && exists k :: 0 <= k < |nodes| && nodes[k].0 == PathsToClosestGcRoots.TagOf(h, r.objects[i])
  {
    var xs := GetObjectToTag(h, objs, NodeTags(nodes));
    var ys := SortByPath(xs, TagToPathNumber(nodes));
    var r := ResultObject(ys, infosOf, h);
    RequestedTagsAreNodes(nodes);
    forall i | 0 <= i < |r.objects|
      ensures r.objects[i] in objs
      ensures exists k :: 0 <= k < |nodes| && nodes[k].0 == PathsToClosestGcRoots.TagOf(h, r.objects[i])
    {
      assert r.objects[i] == ys[i].0;
      assert ys[i] in multiset(xs);
    }
  }

  /** The answer for the assembled `nodes` lists its objects in order of their tags' path numbers. */
  lemma PathAnswerOrdered(h: PathsToClosestGcRoots.Heap, objs: seq<ObjId>, nodes: seq<(int, int)>,
                          infosOf: map<int, seq<Infos.ReferenceInfo>>)
    ensures var r := ResultObject(SortByPath(GetObjectToTag(h, objs, NodeTags(nodes)), TagToPathNumber(nodes)), infosOf, h);
            && r.Answer?
            && forall i, j :: 0 <= i < j < |r.objects| ==>
                 PathNumber(TagToPathNumber(nodes), PathsToClosestGcRoots.TagOf(h, r.objects[i]))
                 <= PathNumber(TagToPathNumber(nodes), PathsToClosestGcRoots.TagOf(h, r.objects[j]))
  {
    var xs := GetObjectToTag(h, objs, NodeTags(nodes));
    var m := TagToPathNumber(nodes);
    var ys := SortByPath(xs, m);
    var r := ResultObject(ys, infosOf, h);
    forall i, j | 0 <= i < j < |r.objects|
      ensures PathNumber(m, PathsToClosestGcRoots.TagOf(h, r.objects[i])) <= PathNumber(m, PathsToClosestGcRoots.TagOf(h, r.objects[j]))
    {
      assert r.objects[i] == ys[i].0 && r.objects[j] == ys[j].0;
      assert ys[i] in multiset(xs) && ys[j] in multiset(xs);
      assert ys[i] in xs && ys[j] in xs;
    }
  }

  /** The back-references of every live tag, as `pointerToGcTag(tag)->backRefs` reads them. */
  function BackRefsOf(h: PathsToClosestGcRoots.Heap): (m: map<int, seq<Infos.ReferenceInfo>>)
    ensures m.Keys == h.store.Keys
    ensures forall p :: p in m ==> m[p] == h.store[p].backRefs
  {
    map p | p in h.store :: h.store[p].backRefs
  }

  /**
   * The tags `getSortedObjectToTag` asks JVMTI for, as written: the vector
   * is constructed with `nodes.size()` zero elements before the node tags
   * are appended.
   */
  function RequestedTagsAsWritten(nodes: seq<(int, int)>): (r: seq<int>)
    ensures |r| == 2 * |nodes|
  {
    seq(|nodes|, _ => 0) + NodeTags(nodes)
  }

  /** The tags of the path nodes, in order: the evidently intended request. */
  function NodeTags(nodes: seq<(int, int)>): (r: seq<int>)
    ensures |r| == |nodes| && forall i :: 0 <= i < |nodes| ==> r[i] == nodes[i].0
  {
    seq(|nodes|, i requires 0 <= i < |nodes| => nodes[i].0)
  }

  /**
   * Any non-empty node list makes the request carry the tag 0, which JVMTI
   * `GetObjectsWithTags` does not accept, in front of the real tags.
   */
  lemma RequestHasZeroTags(nodes: seq<(int, int)>)
    requires nodes != []
    ensures var r := RequestedTagsAsWritten(nodes);
            r[0] == 0 && r[..|nodes|] == seq(|nodes|, _ => 0) && r[|nodes|..] == NodeTags(nodes)
  {
  }

  /** The corrected request holds exactly the node tags, so no zero unless a node tag is 0. */
  lemma RequestedTagsAreNodes(nodes: seq<(int, int)>)
    ensures forall t :: t in NodeTags(nodes) <==> exists i :: 0 <= i < |nodes| && nodes[i].0 == t
  {
    forall t | t in NodeTags(nodes) ensures exists i :: 0 <= i < |nodes| && nodes[i].0 == t {
      var i :| 0 <= i < |nodes| && NodeTags(nodes)[i] == t;
    }
  }

  /** `tagToPathNumber`: each node tag to the path number of its last occurrence. */
  function TagToPathNumber(nodes: seq<(int, int)>): (m: map<int, int>)
    ensures forall t :: t in m <==> exists i :: 0 <= i < |nodes| && nodes[i].0 == t
    ensures forall t :: t in m ==> exists i :: 0 <= i < |nodes| && nodes[i] == (t, m[t])
    decreases |nodes|
  {
    if nodes == [] then map[]
    else
      var n := |nodes| - 1;
      var front := nodes[..n];
      assert forall i :: 0 <= i < n ==> front[i] == nodes[i];
      TagToPathNumber(front)[nodes[n].0 := nodes[n].1]
  }

  /** `tagToPathNumber[tag]`: `operator[]` yields 0 for a tag it does not hold. */
  function PathNumber(m: map<int, int>, tag: int): int {
    if tag in m then m[tag] else 0
  }

  predicate SortedByPath(xs: seq<(ObjId, int)>, m: map<int, int>) {
    forall i, j :: 0 <= i < j < |xs| ==> PathNumber(m, xs[i].1) <= PathNumber(m, xs[j].1)
  }

  /** An element no later than the head of a sorted sequence can go in front of it. */
  lemma ConsSorted(y: (ObjId, int), ys: seq<(ObjId, int)>, m: map<int, int>)
    requires SortedByPath(ys, m) && (ys == [] || PathNumber(m, y.1) <= PathNumber(m, ys[0].1))
    ensures SortedByPath([y] + ys, m)
  {
    var r := [y] + ys;
    forall i, j | 0 <= i < j < |r| ensures PathNumber(m, r[i].1) <= PathNumber(m, r[j].1) {
      if i == 0 && j > 1 {
        assert r[j] == ys[j - 1];
      }
    }
  }

  /** Inserts `x` into `xs` before the first element with a larger path number. */
  function Insert(x: (ObjId, int), xs: seq<(ObjId, int)>, m: map<int, int>): (r: seq<(ObjId, int)>)
    requires SortedByPath(xs, m)
    ensures |r| == |xs| + 1 && (r[0] == x || (xs != [] && r[0] == xs[0]))
    ensures SortedByPath(r, m) && multiset(r) == multiset(xs) + multiset{x}
    decreases |xs|
  {
    if xs == [] then [x]
    else if PathNumber(m, x.1) <= PathNumber(m, xs[0].1) then
      ConsSorted(x, xs, m);
      [x] + xs
    else
      assert xs == [xs[0]] + xs[1..];
      var rest := Insert(x, xs[1..], m);
      ConsSorted(xs[0], rest, m);
      [xs[0]] + rest
  }

  /**
   * The `std::sort` of `getSortedObjectToTag`: the objects JVMTI returned,
   * ordered by the path number of their tags.
   */
  function SortByPath(xs: seq<(ObjId, int)>, m: map<int, int>): (r: seq<(ObjId, int)>)
    ensures SortedByPath(r, m) && multiset(r) == multiset(xs)
    decreases |xs|
  {
    if xs == [] then []
    else
      assert xs == [xs[0]] + xs[1..];
      Insert(xs[0], SortByPath(xs[1..], m), m)
  }

  /** The objects of `objs` whose tag is listed in `tags`, each with its tag, in heap order. */
  function TaggedAmong(h: PathsToClosestGcRoots.Heap, objs: seq<ObjId>, tags: seq<int>): (r: seq<(ObjId, int)>)
    ensures forall p :: p in r <==> p.0 in objs && p.1 == PathsToClosestGcRoots.TagOf(h, p.0) && p.1 in tags
    decreases |objs|
  {
    if objs == [] then []
    else
      var t := PathsToClosestGcRoots.TagOf(h, objs[0]);
      var rest := TaggedAmong(h, objs[1..], tags);
      assert forall o :: o in objs <==> o == objs[0] || o in objs[1..];
      if t in tags then [(objs[0], t)] + rest else rest
  }

  /**
   * JVMTI `GetObjectsWithTags` over the heap objects `objs`: it refuses a
   * request holding the tag 0 (`JVMTI_ERROR_ILLEGAL_ARGUMENT`), and
   * otherwise returns the objects carrying one of the tags.
   */
  function ObjectsWithTags(h: PathsToClosestGcRoots.Heap, objs: seq<ObjId>, tags: seq<int>): (r: Option<seq<(ObjId, int)>>)
    ensures r.None? <==> 0 in tags
    ensures r.Some? ==> forall p :: p in r.value <==> p.0 in objs && p.1 == PathsToClosestGcRoots.TagOf(h, p.0) && p.1 in tags
  {
    if 0 in tags then None else Some(TaggedAmong(h, objs, tags))
  }

  /** `getObjectToTag`: `handleError` only reports a failure, which leaves the list empty. */
  function GetObjectToTag(h: PathsToClosestGcRoots.Heap, objs: seq<ObjId>, tags: seq<int>): (r: seq<(ObjId, int)>)
    ensures 0 in tags ==> r == []
    ensures 0 !in tags ==> forall p :: p in r <==> p.0 in objs && p.1 == PathsToClosestGcRoots.TagOf(h, p.0) && p.1 in tags
  {
    var found := ObjectsWithTags(h, objs, tags);
    if found.Some? then found.value else []
  }

  /**
   * With the request as written, JVMTI refuses every non-empty node list,
   * so the path objects are lost and the answer holds no objects.
   */
  lemma RequestAsWrittenFindsNothing(h: PathsToClosestGcRoots.Heap, objs: seq<ObjId>, nodes: seq<(int, int)>)
    requires nodes != []
    ensures ObjectsWithTags(h, objs, RequestedTagsAsWritten(nodes)).None?
    ensures GetObjectToTag(h, objs, RequestedTagsAsWritten(nodes)) == []
  {
    RequestHasZeroTags(nodes);
    assert 0 in RequestedTagsAsWritten(nodes);
  }

  /**
   * With the node tags alone, the request succeeds when no node has the
   * tag 0, and finds exactly the objects tagged as some node.
   */
  lemma NodeRequestFindsNodes(h: PathsToClosestGcRoots.Heap, objs: seq<ObjId>, nodes: seq<(int, int)>)
    requires forall i :: 0 <= i < |nodes| ==> nodes[i].0 != 0
    ensures ObjectsWithTags(h, objs, NodeTags(nodes)).Some?
    ensures forall p :: p in GetObjectToTag(h, objs, NodeTags(nodes)) <==>
              p.0 in objs && p.1 == PathsToClosestGcRoots.TagOf(h, p.0) && exists i :: 0 <= i < |nodes| && nodes[i].0 == p.1
  {
    RequestedTagsAreNodes(nodes);
  }

  /**
   * `getSortedObjectToTag`, corrected: the request holds the node tags
   * alone, where the source puts `nodes.size()` zero tags before them
   * (`RequestAsWrittenFindsNothing`). The loop collects the tags and the
   * path numbers, then the objects JVMTI returns are sorted by path number.
   */
  method GetSortedObjectToTag(h: PathsToClosestGcRoots.Heap, objs: seq<ObjId>, nodes: seq<(int, int)>)
    returns (r: seq<(ObjId, int)>)
    ensures r == SortByPath(GetObjectToTag(h, objs, NodeTags(nodes)), TagToPathNumber(nodes))
  {
    var tagToPathNumber: map<int, int> := map[];
    var tags: seq<int> := [];
    for i := 0 to |nodes|
      invariant tags == NodeTags(nodes[..i]) && tagToPathNumber == TagToPathNumber(nodes[..i])
    {
      assert nodes[..i + 1][..i] == nodes[..i];
      tags := tags + [nodes[i].0];
      tagToPathNumber := tagToPathNumber[nodes[i].0 := nodes[i].1];
    }
    assert nodes[..|nodes|] == nodes;
    r := SortByPath(GetObjectToTag(h, objs, tags), tagToPathNumber);
  }

  /** One entry per object, and every link points at one of the objects or marks a root with -1. */
  predicate WellLinked(r: Answer) {
    r.Answer? ==>
      && |r.objects| == |r.links| == |r.weakSoftReachable|
      && forall i, k :: 0 <= i < |r.links| && 0 <= k < |r.links[i].prevIndices| ==>
           -1 <= r.links[i].prevIndices[k] < |r.objects|
  }

  /** Indices below `n` in the tag-to-index map keep every link index between -1 and `n`. */
  lemma {:induction false} PrevIndicesInRange(tagToIndex: map<int, int>, infos: seq<Infos.ReferenceInfo>, n: nat)
    requires forall t :: t in tagToIndex ==> 0 <= tagToIndex[t] < n
    ensures forall k :: 0 <= k < |LinksInfos(tagToIndex, infos).prevIndices| ==> -1 <= LinksInfos(tagToIndex, infos).prevIndices[k] < n
    decreases |infos|
  {
    if infos != [] {
      var x := infos[|infos| - 1];
      PrevIndicesInRange(tagToIndex, infos[..|infos| - 1], n);
      assert -1 <= PrevIndex(tagToIndex, x) < n;
    }
  }

  /** What `createResultObject` builds is well linked. */
  lemma {:induction false} ResultWellLinked(objectToTag: seq<(ObjId, int)>, infosOf: map<int, seq<Infos.ReferenceInfo>>,
                         h: PathsToClosestGcRoots.Heap, r: Answer)
    requires forall p :: p in objectToTag ==> p.1 in infosOf
    requires r.Answer? && |r.objects| == |r.links| == |r.weakSoftReachable| == |objectToTag|
    requires forall i :: 0 <= i < |objectToTag| ==> r.links[i] == LinksInfos(TagToIndex(objectToTag), infosOf[objectToTag[i].1])
    ensures WellLinked(r)
  {
    TagToIndexLast(objectToTag);
    assert forall t :: t in TagToIndex(objectToTag) ==> 0 <= TagToIndex(objectToTag)[t] < |objectToTag|;
    forall i | 0 <= i < |r.links|
      ensures forall k :: 0 <= k < |r.links[i].prevIndices| ==> -1 <= r.links[i].prevIndices[k] < |r.objects|
    {
      PrevIndicesInRange(TagToIndex(objectToTag), infosOf[objectToTag[i].1], |objectToTag|);
    }
  }
}
