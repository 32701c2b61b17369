/**
 * The heap dump: every object JVMTI reaches gets a dense node id in the low
 * 30 bits of its tag (the bits above hold the index of its class, set
 * beforehand on class objects), every reference becomes an edge between
 * node ids, and Kosaraju's algorithm splits the graph into strongly
 * connected components.
 */
module HeapDump {
  import opened Jvmti

  /** `SHIFT_SIZE`, `SHIFT = 1 << SHIFT_SIZE`, `NODE_MASK = SHIFT - 1`. */
  const SHIFT_SIZE: nat := 30
  const SHIFT: nat := 0x4000_0000
  const NODE_MASK: nat := SHIFT - 1

  /** `tag & NODE_MASK` on a non-negative tag: the node id. */
  function NodeBits(tag: nat): (r: nat)
    ensures r <= NODE_MASK
  {
    tag % SHIFT
  }

  /** `tag >> SHIFT_SIZE` on a non-negative tag: the class bits. */
  function ClassBits(tag: nat): nat {
    tag / SHIFT
  }

  /** Adding an id below `SHIFT` to a tag with clear node bits sets exactly those bits. */
  lemma AddNodeBits(tag: nat, id: nat)
    requires NodeBits(tag) == 0
    ensures id < SHIFT ==> NodeBits(tag + id) == id && ClassBits(tag + id) == ClassBits(tag)
  {
    if id < SHIFT {
      var q := tag / SHIFT;
      assert tag == q * SHIFT;
      assert tag + id == q * SHIFT + id;
    }
  }

  /** `node_data`: the outgoing edges, the size and the class index of a node. */
  datatype NodeData = NodeData(edges: seq<nat>, size: int, classId: int)

  /** What `operator[]` of the node map yields for a node it does not hold. */
  function NodeAt(nodes: map<nat, NodeData>, id: nat): NodeData {
    if id in nodes then nodes[id] else NodeData([], 0, 0)
  }

  /** The edges of `id`, empty for a node the map does not hold. */
  function Succ(nodes: map<nat, NodeData>, id: nat): seq<nat> {
    NodeAt(nodes, id).edges
  }

  /**
   * The JVMTI tags together with the `data` structure filled during the
   * dump: the node map and `global_index`, the last id given out.
   */
  datatype Dump = Dump(tags: map<ObjId, nat>, nodes: map<nat, NodeData>, globalIndex: nat)

  function TagAt(d: Dump, o: ObjId): nat {
    if o in d.tags then d.tags[o] else 0
  }

  /**
   * `get_tag_or_create` on the tag slot of `slot` (`None` is a null
   * pointer): an object whose node bits are clear gets the next index added
   * to its tag; the answer is the node bits of the tag.
   */
  function TagOrCreate(d: Dump, slot: Option<ObjId>): (r: (Dump, nat))
    ensures r.0.nodes == d.nodes
    ensures slot.None? ==> r == (d, 0)
    ensures slot.Some? ==> forall o :: o != slot.value ==> TagAt(r.0, o) == TagAt(d, o)
    ensures slot.Some? && NodeBits(TagAt(d, slot.value)) != 0 ==> r == (d, NodeBits(TagAt(d, slot.value)))
    ensures slot.Some? && NodeBits(TagAt(d, slot.value)) == 0 ==>
              r.0.globalIndex == d.globalIndex + 1 && r.0.tags.Keys == d.tags.Keys + {slot.value}
    ensures slot.Some? && NodeBits(TagAt(d, slot.value)) == 0 && d.globalIndex + 1 < SHIFT ==>
              && r.1 == d.globalIndex + 1 == NodeBits(TagAt(r.0, slot.value))
              && ClassBits(TagAt(r.0, slot.value)) == ClassBits(TagAt(d, slot.value))
  {
    if slot.None? then (d, 0)
    else
      var o := slot.value;
      var t := TagAt(d, o);
      if NodeBits(t) == 0 then
        var id := d.globalIndex + 1;
        var t' := t + id;
        AddNodeBits(t, id);
        (d.(tags := d.tags[o := t'], globalIndex := id), NodeBits(t'))
      else (d, NodeBits(t))
  }

  /** One reference as `cbBuildGraph` receives it. */
  datatype Reported = Reported(referrer: Option<ObjId>, referee: ObjId, classTag: int, referrerClassTag: int, size: int)

  /** `class_id = classTag >> SHIFT_SIZE` when the class tag carries class bits, stored as a jsize. */
  function WithClass(n: NodeData, classTag: int): (r: NodeData)
    ensures r.edges == n.edges && r.size == n.size
    ensures classTag >= SHIFT && classTag / SHIFT <= JINT_MAX ==> r.classId == classTag / SHIFT
    ensures classTag < SHIFT ==> r.classId == n.classId
  {
    if classTag >= SHIFT then n.(classId := ToJint(classTag / SHIFT)) else n
  }

  /**
   * `cbBuildGraph`: both ends get their node ids; a reference whose
   * referee id is 0 is dropped; a referrer with an id gets the edge to the
   * referee and its class; the referee gets its size and its class.
   */
  function BuildGraphStep(d: Dump, e: Reported): (r: Dump)
  {
    var (d1, referrerId) := TagOrCreate(d, e.referrer);
    var (d2, refereeId) := TagOrCreate(d1, Some(e.referee));
    if refereeId == 0 then d2 else d2.(nodes := Link(d2.nodes, referrerId, refereeId, e))
  }

  /** The node updates of `cbBuildGraph` once both ids are known. */
  function Link(nodes: map<nat, NodeData>, referrerId: nat, refereeId: nat, e: Reported): (r: map<nat, NodeData>)
    ensures r.Keys == nodes.Keys + {refereeId} + (if referrerId != 0 then {referrerId} else {})
    ensures referrerId != 0 ==> Succ(r, referrerId) == Succ(nodes, referrerId) + [refereeId]
    ensures referrerId == 0 ==> Succ(r, refereeId) == Succ(nodes, refereeId)
    ensures r[refereeId].size == e.size
    ensures forall k :: k in r && k != referrerId && k != refereeId ==> r[k] == nodes[k]
  {
    var n1 := if referrerId != 0 then
                var v := NodeAt(nodes, referrerId);
                nodes[referrerId := WithClass(v.(edges := v.edges + [refereeId]), e.referrerClassTag)]
              else nodes;
    var m := NodeAt(n1, refereeId);
    n1[refereeId := WithClass(m.(size := e.size), e.classTag)]
  }

  /** The updates keep every id and edge end in `1..n` when both ids are. */
  lemma LinkInRange(nodes: map<nat, NodeData>, n: nat, referrerId: nat, refereeId: nat, e: Reported)
    requires InRange(nodes, n) && referrerId <= n && 1 <= refereeId <= n
    ensures InRange(Link(nodes, referrerId, refereeId, e), n)
  {
    var r := Link(nodes, referrerId, refereeId, e);
    forall k | k in r ensures 1 <= k <= n && forall j :: 0 <= j < |r[k].edges| ==> 1 <= r[k].edges[j] <= n {
      if k == referrerId || k == refereeId {
        var v := NodeAt(nodes, k);
        assert forall j :: 0 <= j < |v.edges| ==> 1 <= v.edges[j] <= n;
      }
    }
  }

  /** The dump after `FollowReferences` reported `edges` in this order. */
  function BuildGraph(d: Dump, edges: seq<Reported>): Dump
    decreases |edges|
  {
    if edges == [] then d else BuildGraphStep(BuildGraph(d, edges[..|edges| - 1]), edges[|edges| - 1])
  }

  /** Every node id and every edge end lies in `1..n`. */
  predicate InRange(nodes: map<nat, NodeData>, n: nat) {
    forall k :: k in nodes ==> 1 <= k <= n && forall j :: 0 <= j < |nodes[k].edges| ==> 1 <= nodes[k].edges[j] <= n
  }

  /**
   * The ids given out are exactly `1..globalIndex`, `owners[k]` being
   * the one object with id `k + 1`, and the graph uses no other id.
   */
  ghost predicate DenseIds(d: Dump, owners: seq<ObjId>) {
    && |owners| == d.globalIndex
    && (forall k :: 0 <= k < |owners| ==> NodeBits(TagAt(d, owners[k])) == k + 1)
    && (forall o :: o in d.tags && NodeBits(d.tags[o]) != 0 ==>
          NodeBits(d.tags[o]) <= |owners| && owners[NodeBits(d.tags[o]) - 1] == o)
    && InRange(d.nodes, d.globalIndex)
  }

  /** Before the dump only class bits are set, and there are no nodes. */
  lemma DenseAtStart(tags: map<ObjId, nat>)
    requires forall o :: o in tags ==> NodeBits(tags[o]) == 0
    ensures DenseIds(Dump(tags, map[], 0), [])
  {
  }

  /** An object without an id gets the next one, which keeps the ids dense. */
  lemma CreateDense(d: Dump, owners: seq<ObjId>, o: ObjId)
    requires DenseIds(d, owners) && d.globalIndex + 1 < SHIFT && NodeBits(TagAt(d, o)) == 0
    ensures DenseIds(TagOrCreate(d, Some(o)).0, owners + [o])
  {
    CreateDenseOwners(d, owners, o);
    CreateDenseTags(d, owners, o);
  }

  /** After the new id, the k-th owner still has id k + 1, the new one included. */
  lemma CreateDenseOwners(d: Dump, owners: seq<ObjId>, o: ObjId)
    requires DenseIds(d, owners) && d.globalIndex + 1 < SHIFT && NodeBits(TagAt(d, o)) == 0
    ensures var r := TagOrCreate(d, Some(o)).0;
            forall k :: 0 <= k < |owners + [o]| ==> NodeBits(TagAt(r, (owners + [o])[k])) == k + 1
  {
    var r := TagOrCreate(d, Some(o)).0;
    var a := owners + [o];
    forall k | 0 <= k < |owners| ensures NodeBits(TagAt(r, a[k])) == k + 1 {
      assert a[k] == owners[k];
      assert NodeBits(TagAt(d, a[k])) == k + 1;
    }
  }

  /** After the new id, every tagged object with an id is the owner listed at that id. */
  lemma CreateDenseTags(d: Dump, owners: seq<ObjId>, o: ObjId)
    requires DenseIds(d, owners) && d.globalIndex + 1 < SHIFT && NodeBits(TagAt(d, o)) == 0
    ensures var r := TagOrCreate(d, Some(o)).0;
            forall p :: p in r.tags && NodeBits(r.tags[p]) != 0 ==>
              NodeBits(r.tags[p]) <= |owners| + 1 && (owners + [o])[NodeBits(r.tags[p]) - 1] == p
  {
    var r := TagOrCreate(d, Some(o)).0;
    forall p | p in r.tags && NodeBits(r.tags[p]) != 0 && p != o
      ensures NodeBits(r.tags[p]) <= |owners| && owners[NodeBits(r.tags[p]) - 1] == p
    {
      assert TagAt(r, p) == TagAt(d, p) && p in d.tags;
    }
  }

  /** `get_tag_or_create` keeps the ids dense and answers a non-zero id for an object. */
  lemma TagOrCreateDense(d: Dump, owners: seq<ObjId>, slot: Option<ObjId>) returns (owners': seq<ObjId>)
    requires DenseIds(d, owners) && d.globalIndex + 1 < SHIFT
    ensures var r := TagOrCreate(d, slot);
            && DenseIds(r.0, owners')
            && d.globalIndex <= r.0.globalIndex <= d.globalIndex + 1
            && (slot.Some? <==> r.1 != 0)
            && (slot.Some? ==> r.1 <= r.0.globalIndex && r.1 == NodeBits(TagAt(r.0, slot.value)))
    ensures |owners| <= |owners'| && owners'[..|owners|] == owners
  {
    owners' := owners;
    if slot.Some? && NodeBits(TagAt(d, slot.value)) == 0 {
      CreateDense(d, owners, slot.value);
      owners' := owners + [slot.value];
      assert owners'[..|owners|] == owners;
    }
  }

  /** Dense ids do not depend on the nodes beyond their range. */
  lemma DenseWithNodes(d: Dump, owners: seq<ObjId>, nodes: map<nat, NodeData>)
    requires DenseIds(d, owners) && InRange(nodes, d.globalIndex)
    ensures DenseIds(d.(nodes := nodes), owners)
  {
    assert d.(nodes := nodes).tags == d.tags;
    assert forall o :: TagAt(d.(nodes := nodes), o) == TagAt(d, o);
  }

  /** The two id lookups of `cbBuildGraph` keep the ids dense; the referee gets a non-zero id. */
  lemma BothIdsDense(d: Dump, owners: seq<ObjId>, e: Reported) returns (owners': seq<ObjId>)
    requires DenseIds(d, owners) && d.globalIndex + 2 < SHIFT
    ensures var r1 := TagOrCreate(d, e.referrer);
            var r2 := TagOrCreate(r1.0, Some(e.referee));
            && DenseIds(r2.0, owners') && r1.1 <= r2.0.globalIndex && 1 <= r2.1 <= r2.0.globalIndex
            && d.globalIndex <= r2.0.globalIndex <= d.globalIndex + 2
    ensures |owners| <= |owners'| && owners'[..|owners|] == owners
  {
    var r1 := TagOrCreate(d, e.referrer);
    var a1 := TagOrCreateDense(d, owners, e.referrer);
    assert DenseIds(r1.0, a1) && d.globalIndex <= r1.0.globalIndex <= d.globalIndex + 1 && r1.1 <= r1.0.globalIndex;
    assert |owners| <= |a1| && a1[..|owners|] == owners;
    owners' := TagOrCreateDense(r1.0, a1, Some(e.referee));
    var r2 := TagOrCreate(r1.0, Some(e.referee));
    assert DenseIds(r2.0, owners') && r1.0.globalIndex <= r2.0.globalIndex <= r1.0.globalIndex + 1;
    assert 1 <= r2.1 <= r2.0.globalIndex;
    assert owners'[..|owners|] == owners by {
      assert |a1| <= |owners'| && owners'[..|a1|] == a1;
      assert owners'[..|owners|] == owners'[..|a1|][..|owners|];
    }
  }

  /** `cbBuildGraph` keeps the ids dense and gives out at most two new ids. */
  lemma BuildGraphStepDense(d: Dump, owners: seq<ObjId>, e: Reported) returns (owners': seq<ObjId>)
    requires DenseIds(d, owners) && d.globalIndex + 2 < SHIFT
    ensures DenseIds(BuildGraphStep(d, e), owners')
    ensures d.globalIndex <= BuildGraphStep(d, e).globalIndex <= d.globalIndex + 2
    ensures |owners| <= |owners'| && owners'[..|owners|] == owners
  {
    owners' := BothIdsDense(d, owners, e);
    var r1 := TagOrCreate(d, e.referrer);
    var r2 := TagOrCreate(r1.0, Some(e.referee));
    var d2 := r2.0;
    LinkInRange(d2.nodes, d2.globalIndex, r1.1, r2.1, e);
    DenseWithNodes(d2, owners', Link(d2.nodes, r1.1, r2.1, e));
    assert BuildGraphStep(d, e) == d2.(nodes := Link(d2.nodes, r1.1, r2.1, e));
  }

  /**
   * The whole dump keeps the ids dense while fewer than `SHIFT` ids are
   * needed: each object reached has one id, and the ids are `1..n`.
   */
  lemma {:induction false} BuildGraphDense(d: Dump, owners: seq<ObjId>, edges: seq<Reported>) returns (owners': seq<ObjId>)
    requires DenseIds(d, owners) && d.globalIndex + 2 * |edges| < SHIFT
    ensures DenseIds(BuildGraph(d, edges), owners')
    ensures BuildGraph(d, edges).globalIndex <= d.globalIndex + 2 * |edges|
    ensures |owners| <= |owners'| && owners'[..|owners|] == owners
    decreases |edges|
  {
    if edges == [] {
      owners' := owners;
    } else {
      var front := edges[..|edges| - 1];
      var a1 := BuildGraphDense(d, owners, front);
      owners' := BuildGraphStepDense(BuildGraph(d, front), a1, edges[|edges| - 1]);
      assert owners'[..|owners|] == a1[..|owners|];
    }
  }

  /** From tags holding class bits only, the dump of `edges` has dense ids. */
  lemma DumpDense(classTags: map<ObjId, nat>, edges: seq<Reported>) returns (owners: seq<ObjId>)
    requires forall o :: o in classTags ==> NodeBits(classTags[o]) == 0
    requires 2 * |edges| < SHIFT
    ensures DenseIds(BuildGraph(Dump(classTags, map[], 0), edges), owners)
  {
    DenseAtStart(classTags);
    owners := BuildGraphDense(Dump(classTags, map[], 0), [], edges);
  }

  /**
   * What one reference adds: the referee's node gets the reported size,
   * a root reference adds no edge, and any other reference appends the
   * referee's id to the referrer's edges.
   */
  lemma BuildGraphStepEdges(d: Dump, owners: seq<ObjId>, e: Reported)
    requires DenseIds(d, owners) && d.globalIndex + 2 < SHIFT
    ensures var r := BuildGraphStep(d, e);
            var to := NodeBits(TagAt(r, e.referee));
            && 1 <= to <= r.globalIndex && NodeAt(r.nodes, to).size == e.size
            && (e.referrer.None? ==> forall k :: Succ(r.nodes, k) == Succ(d.nodes, k))
            && (e.referrer.Some? ==>
                  var from := NodeBits(TagAt(r, e.referrer.value));
                  && 1 <= from <= r.globalIndex
                  && Succ(r.nodes, from) == Succ(d.nodes, from) + [to]
                  && forall k :: k != from ==> Succ(r.nodes, k) == Succ(d.nodes, k))
  {
    var r1 := TagOrCreate(d, e.referrer);
    var a1 := TagOrCreateDense(d, owners, e.referrer);
    var r2 := TagOrCreate(r1.0, Some(e.referee));
    var a2 := TagOrCreateDense(r1.0, a1, Some(e.referee));
    assert BuildGraphStep(d, e) == r2.0.(nodes := Link(r2.0.nodes, r1.1, r2.1, e));
    if e.referrer.Some? {
      assert TagAt(r2.0, e.referrer.value) == TagAt(r1.0, e.referrer.value);
    }
  }

  /**
   * The JVMTI tags and the `data` structure of a dump, changed in place by
   * `get_tag_or_create` and `cbBuildGraph`.
   */
  class HeapDumpData {
    var tags: map<ObjId, nat>
    var nodes: map<nat, NodeData>
    var globalIndex: nat

    function Snapshot(): Dump
      reads this
    {
      Dump(tags, nodes, globalIndex)
    }

    /** `data()`: no nodes and index 0, over the tags the classes were given. */
    constructor(classTags: map<ObjId, nat>)
      ensures Snapshot() == Dump(classTags, map[], 0)
    {
      tags := classTags;
      nodes := map[];
      globalIndex := 0;
    }

    /** `get_tag_or_create`. */
    method GetTagOrCreate(slot: Option<ObjId>) returns (id: nat)
      modifies this
      ensures (Snapshot(), id) == TagOrCreate(old(Snapshot()), slot)
    {
      if slot.None? {
        return 0;
      }
      var o := slot.value;
      var t := if o in tags then tags[o] else 0;
      if t % SHIFT == 0 {
        globalIndex := globalIndex + 1;
        t := t + globalIndex;
        tags := tags[o := t];
      }
      id := t % SHIFT;
    }

    /** `cbBuildGraph`; it always returns `JVMTI_VISIT_OBJECTS`. */
    method BuildGraphCallback(e: Reported) returns (v: Visit)
      modifies this
      ensures v == VisitObjects && Snapshot() == BuildGraphStep(old(Snapshot()), e)
    {
      v := VisitObjects;
      var referrerId := GetTagOrCreate(e.referrer);
      var refereeId := GetTagOrCreate(Some(e.referee));
      if refereeId == 0 {
        return;
      }
      if referrerId != 0 {
        var n := NodeAt(nodes, referrerId);
        n := n.(edges := n.edges + [refereeId]);
        if e.referrerClassTag >= SHIFT {
          n := n.(classId := ToJint(e.referrerClassTag / SHIFT));
        }
        nodes := nodes[referrerId := n];
      }
      var m := NodeAt(nodes, refereeId);
      m := m.(size := e.size);
      if e.classTag >= SHIFT {
        m := m.(classId := ToJint(e.classTag / SHIFT));
      }
      nodes := nodes[refereeId := m];
    }

    /** `FollowReferences` with `cbBuildGraph`, the references reported in the order of `edges`. */
    method FollowReferences(edges: seq<Reported>)
      modifies this
      ensures Snapshot() == BuildGraph(old(Snapshot()), edges)
    {
      for i := 0 to |edges|
        invariant Snapshot() == BuildGraph(old(Snapshot()), edges[..i])
      {
        assert edges[..i + 1][..i] == edges[..i];
        var _ := BuildGraphCallback(edges[i]);
      }
      assert edges[..|edges|] == edges;
    }
  }

  /** Whether `pat` occurs in `s`, searched from the front as `std::string::find` does. */
  function Occurs(pat: string, s: string): bool
    decreases |s|
  {
    if |s| < |pat| then false else s[..|pat|] == pat || Occurs(pat, s[1..])
  }

  /** `pat` starts at position `i` of `s`. */
  predicate StartsAt(pat: string, s: string, i: int) {
    0 <= i <= |s| - |pat| && s[i..i + |pat|] == pat
  }

  /** The search finds `pat` exactly when some position of `s` starts it. */
  lemma {:induction false} OccursAt(pat: string, s: string)
    ensures Occurs(pat, s) <==> exists i :: StartsAt(pat, s, i)
    decreases |s|
  {
    if |s| >= |pat| {
      if s[..|pat|] == pat {
        assert StartsAt(pat, s, 0);
      } else {
        assert !StartsAt(pat, s, 0);
        if |s| > 0 {
          OccursAt(pat, s[1..]);
          if Occurs(pat, s[1..]) {
            var i :| StartsAt(pat, s[1..], i);
            assert s[i + 1..i + 1 + |pat|] == s[1..][i..i + |pat|];
            assert StartsAt(pat, s, i + 1);
          }
          if exists i :: StartsAt(pat, s, i) {
            var i :| StartsAt(pat, s, i);
            assert s[1..][i - 1..i - 1 + |pat|] == s[i..i + |pat|];
            assert StartsAt(pat, s[1..], i - 1);
          }
        }
      }
    }
  }

  /**
   * The number of bytes of `s` in the modified UTF-8 that JVMTI hands out
   * signatures in: one for 1 to 0x7F, two for NUL and up to 0x7FF, three for
   * the rest of the Basic Multilingual Plane, and six (a surrogate pair of
   * three bytes each) beyond it.
   */
  function ModifiedUtf8Length(s: string): (r: nat)
    ensures |s| <= r <= 6 * |s|
  {
    if s == [] then 0
    else
      var c := s[0] as int;
      var n := if 0 < c < 0x80 then 1 else if c < 0x800 then 2 else if c < 0x1_0000 then 3 else 6;
      n + ModifiedUtf8Length(s[1..])
  }

  /** Characters from 1 to 0x7F take one byte each, so then the byte length is the character count. */
  lemma {:induction false} AsciiLength(s: string)
    requires forall i :: 0 <= i < |s| ==> 0 < s[i] as int < 0x80
    ensures ModifiedUtf8Length(s) == |s|
  {
    if s != [] {
      AsciiLength(s[1..]);
    }
  }

  /** A signature of four characters can still be five bytes or more: "Lää;" is six. */
  lemma BytesNotCharacters()
    ensures |"L\U{e4}\U{e4};"| == 4 && ModifiedUtf8Length("L\U{e4}\U{e4};") == 6
    ensures !ShouldSkipClass("L\U{e4}\U{e4};")
  {
    assert ModifiedUtf8Length("L\U{e4}\U{e4};"[3..]) == 1;
    assert ModifiedUtf8Length("L\U{e4}\U{e4};"[2..]) == 3;
    assert ModifiedUtf8Length("L\U{e4}\U{e4};"[1..]) == 5;
  }

  /**
   * `shouldSkipClass`: class signatures of the JDK (`Ljava/`, `Lsun/`
   * anywhere in them) and signatures shorter than five bytes are not
   * tagged. The two patterns are ASCII, and an ASCII byte never occurs
   * inside the encoding of another character, so finding them among the
   * characters is finding them among the bytes.
   */
  function ShouldSkipClass(s: string): (r: bool)
    ensures r <==> (exists i :: StartsAt("Ljava/", s, i)) || (exists i :: StartsAt("Lsun/", s, i)) || ModifiedUtf8Length(s) < 5
  {
    OccursAt("Ljava/", s);
    OccursAt("Lsun/", s);
    Occurs("Ljava/", s) || Occurs("Lsun/", s) || ModifiedUtf8Length(s) < 5
  }

  predicate Distinct(s: seq<nat>) {
    forall i, j :: 0 <= i < j < |s| ==> s[i] != s[j]
  }

  /** The vertices `visited` does not mark yet. */
  ghost function Unvisited(visited: array<bool>): set<nat>
    reads visited
  {
    set i: nat | i < visited.Length && !visited[i]
  }

  /** Every successor of every vertex of `seg` is marked in `marks`. */
  ghost predicate Closed(nodes: map<nat, NodeData>, seg: seq<nat>, marks: seq<bool>) {
    forall k, j :: 0 <= k < |seg| && 0 <= j < |Succ(nodes, seg[k])| ==>
      Succ(nodes, seg[k])[j] < |marks| && marks[Succ(nodes, seg[k])[j]]
  }

  /**
   * `r` is `order` with a segment appended whose vertices were unmarked in
   * `init` and are, with `v` (or nothing when `v` is -1), exactly the
   * vertices marked in `marks` and not in `init`; the segment holds each
   * vertex once and all successors of its vertices are marked.
   */
  ghost predicate Appended(init: seq<bool>, order: seq<nat>, r: seq<nat>, marks: seq<bool>, nodes: map<nat, NodeData>, v: int) {
    && |init| == |marks|
    && |order| <= |r| && r[..|order|] == order
    && (forall i :: 0 <= i < |marks| ==> (marks[i] <==> init[i] || i == v || i in r[|order|..]))
    && (forall k :: |order| <= k < |r| ==> 1 <= r[k] < |marks| && !init[r[k]] && r[k] != v)
    && Distinct(r[|order|..])
    && Closed(nodes, r[|order|..], marks)
  }

  /** Nothing appended yet once `v` is marked. */
  lemma AppendedStart(init: seq<bool>, order: seq<nat>, nodes: map<nat, NodeData>, v: nat)
    requires v < |init|
    ensures Appended(init, order, order, init[v := true], nodes, v)
  {
  }

  /** A call that appends a segment after `before` extends the segment of the caller. */
  lemma AppendedTrans(init: seq<bool>, mid: seq<bool>, marks: seq<bool>, order: seq<nat>, before: seq<nat>, after: seq<nat>,
                      nodes: map<nat, NodeData>, v: nat)
    requires Appended(init, order, before, mid, nodes, v) && v < |mid| && mid[v]
    requires Appended(mid, before, after, marks, nodes, -1)
    ensures Appended(init, order, after, marks, nodes, v)
  {
    assert after[..|order|] == after[..|before|][..|order|];
    var s1 := before[|order|..];
    var s2 := after[|before|..];
    assert after[|order|..] == s1 + s2;
    forall i | 0 <= i < |marks| ensures marks[i] <==> init[i] || i == v || i in after[|order|..] {
      assert i in after[|order|..] <==> i in s1 || i in s2;
    }
    forall k | |order| <= k < |after| ensures 1 <= after[k] < |marks| && !init[after[k]] && after[k] != v {
      if k < |before| {
        assert after[k] == before[k];
      }
    }
    forall a, b | 0 <= a < b < |s1 + s2| ensures (s1 + s2)[a] != (s1 + s2)[b] {
      if a < |s1| && b >= |s1| {
        assert mid[(s1 + s2)[a]];
        assert (s1 + s2)[b] == s2[b - |s1|] == after[|before| + b - |s1|];
      }
    }
    forall k, j | 0 <= k < |s1 + s2| && 0 <= j < |Succ(nodes, (s1 + s2)[k])|
      ensures Succ(nodes, (s1 + s2)[k])[j] < |marks| && marks[Succ(nodes, (s1 + s2)[k])[j]]
    {
      if k < |s1| {
        assert (s1 + s2)[k] == s1[k];
      } else {
        assert (s1 + s2)[k] == s2[k - |s1|];
      }
    }
  }

  /** Once all of `v`'s successors are marked, `v` closes the segment. */
  lemma AppendedFinish(init: seq<bool>, order: seq<nat>, r: seq<nat>, marks: seq<bool>, nodes: map<nat, NodeData>, v: nat)
    requires Appended(init, order, r, marks, nodes, v) && 1 <= v < |marks| && !init[v]
    requires forall j :: 0 <= j < |Succ(nodes, v)| ==> Succ(nodes, v)[j] < |marks| && marks[Succ(nodes, v)[j]]
    ensures Appended(init, order, r + [v], marks, nodes, -1)
  {
    assert (r + [v])[..|order|] == r[..|order|];
    assert (r + [v])[|order|..] == r[|order|..] + [v];
    forall i | 0 <= i < |marks| ensures marks[i] <==> init[i] || i in (r + [v])[|order|..] {
      assert i in (r + [v])[|order|..] <==> i in r[|order|..] || i == v;
    }
  }

  /**
   * `dfs1`: marks `v` and, depth first, every vertex reachable from it
   * through unmarked vertices, and appends them to `order` in post-order:
   * each vertex after the ones its own calls appended, `v` last. The
   * appended vertices are exactly the newly marked ones, each once, and
   * all their successors end up marked.
   */
  method Dfs1(v: nat, nodes: map<nat, NodeData>, order: seq<nat>, visited: array<bool>) returns (r: seq<nat>)
    requires 1 <= v < visited.Length && InRange(nodes, visited.Length - 1) && !visited[v]
    modifies visited
    decreases Unvisited(visited)
    ensures |order| < |r| && r[|r| - 1] == v
    ensures Appended(old(visited[..]), order, r, visited[..], nodes, -1)
  {
    ghost var init := visited[..];
    visited[v] := true;
    AppendedStart(init, order, nodes, v);
    assert visited[..] == init[v := true];
    r := order;
    var es := Succ(nodes, v);
    assert forall j :: 0 <= j < |es| ==> 1 <= es[j] < visited.Length;
    for j := 0 to |es|
      invariant Appended(init, order, r, visited[..], nodes, v) && visited[v]
      invariant forall k :: 0 <= k < j ==> visited[es[k]]
    {
      var w := es[j];
      if !visited[w] {
        ghost var before := r;
        ghost var mid := visited[..];
        assert Unvisited(visited) < old(Unvisited(visited)) by {
          assert v in old(Unvisited(visited)) && v !in Unvisited(visited);
        }
        r := Dfs1(w, nodes, r, visited);
        AppendedTrans(init, mid, visited[..], order, before, r, nodes, v);
      }
    }
    AppendedFinish(init, order, r, visited[..], nodes, v);
    r := r + [v];
  }

  /** How many times `x` occurs in `s`. */
  function Count(s: seq<nat>, x: nat): nat
    decreases |s|
  {
    if s == [] then 0 else Count(s[..|s| - 1], x) + (if s[|s| - 1] == x then 1 else 0)
  }

  lemma CountPush(s: seq<nat>, y: nat)
    ensures forall x :: Count(s + [y], x) == Count(s, x) + (if x == y then 1 else 0)
  {
    assert (s + [y])[..|s|] == s;
  }

  /** An element occurs a positive number of times exactly when it is in the sequence. */
  lemma {:induction false} CountPositive(s: seq<nat>, x: nat)
    ensures Count(s, x) > 0 <==> x in s
    decreases |s|
  {
    if s != [] {
      CountPositive(s[..|s| - 1], x);
      assert s == s[..|s| - 1] + [s[|s| - 1]];
    }
  }

  /** `result[w].edges.push_back(u)`. */
  function PushEdge(t: map<nat, NodeData>, w: nat, u: nat): (r: map<nat, NodeData>)
    ensures r.Keys == t.Keys + {w} && |r[w].edges| > 0 && forall v :: v in t && v != w ==> r[v] == t[v]
  {
    var n := NodeAt(t, w);
    t[w := n.(edges := n.edges + [u])]
  }

  /** The reversed edges `w -> u` for every `w` of `es`, pushed in order. */
  function PushAll(t: map<nat, NodeData>, u: nat, es: seq<nat>): (r: map<nat, NodeData>)
    decreases |es|
  {
    if es == [] then t else PushEdge(PushAll(t, u, es[..|es| - 1]), es[|es| - 1], u)
  }

  /** The transpose after the nodes `keys` were visited in this order. */
  function TransposeOf(nodes: map<nat, NodeData>, keys: seq<nat>): map<nat, NodeData>
    decreases |keys|
  {
    if keys == [] then map[] else
      var u := keys[|keys| - 1];
      PushAll(TransposeOf(nodes, keys[..|keys| - 1]), u, Succ(nodes, u))
  }

  lemma DistinctPush(s: seq<nat>, x: nat)
    requires Distinct(s) && x !in s
    ensures Distinct(s + [x])
  {
  }

  /** Pushing `u` onto `w`'s edges adds one `u` there and changes nothing else. */
  lemma PushEdgeCount(t: map<nat, NodeData>, w: nat, u: nat, x: nat, v: nat)
    ensures Count(Succ(PushEdge(t, w, u), v), x) == Count(Succ(t, v), x) + (if x == u && v == w then 1 else 0)
  {
    if v == w {
      assert Succ(PushEdge(t, w, u), v) == Succ(t, w) + [u];
      CountPush(Succ(t, w), u);
    }
  }

  lemma {:induction false} PushAllCount(t: map<nat, NodeData>, u: nat, es: seq<nat>, x: nat, v: nat)
    ensures Count(Succ(PushAll(t, u, es), v), x) == Count(Succ(t, v), x) + (if x == u then Count(es, v) else 0)
    decreases |es|
  {
    if es != [] {
      var front := es[..|es| - 1];
      PushAllCount(t, u, front, x, v);
      PushEdgeCount(PushAll(t, u, front), es[|es| - 1], u, x, v);
    }
  }

  lemma {:induction false} PushAllNonEmpty(t: map<nat, NodeData>, u: nat, es: seq<nat>)
    requires forall w :: w in t ==> |t[w].edges| > 0
    ensures forall w :: w in PushAll(t, u, es) ==> |PushAll(t, u, es)[w].edges| > 0
    decreases |es|
  {
    if es != [] {
      PushAllNonEmpty(t, u, es[..|es| - 1]);
    }
  }

  /** With distinct keys, the edge `w -> x` occurs as often as `x -> w` does among the visited nodes. */
  lemma {:induction false} TransposeOfCount(nodes: map<nat, NodeData>, keys: seq<nat>, x: nat, w: nat)
    requires Distinct(keys)
    ensures Count(Succ(TransposeOf(nodes, keys), w), x) == if x in keys then Count(Succ(nodes, x), w) else 0
    decreases |keys|
  {
    if keys != [] {
      var front := keys[..|keys| - 1];
      var u := keys[|keys| - 1];
      assert Distinct(front);
      TransposeOfCount(nodes, front, x, w);
      PushAllCount(TransposeOf(nodes, front), u, Succ(nodes, u), x, w);
      assert keys == front + [u];
      assert u !in front;
    } else {
      assert Succ(map[], w) == [];
    }
  }

  lemma {:induction false} TransposeOfNonEmpty(nodes: map<nat, NodeData>, keys: seq<nat>)
    ensures forall w :: w in TransposeOf(nodes, keys) ==> |TransposeOf(nodes, keys)[w].edges| > 0
    decreases |keys|
  {
    if keys != [] {
      TransposeOfNonEmpty(nodes, keys[..|keys| - 1]);
      PushAllNonEmpty(TransposeOf(nodes, keys[..|keys| - 1]), keys[|keys| - 1], Succ(nodes, keys[|keys| - 1]));
    }
  }

  /**
   * `transpose`: every edge `u -> w` of `nodes` becomes `w -> u`, as many
   * times as it occurs; the nodes are visited in the unspecified order of
   * the hash map, and every node of the result has an edge.
   */
  method Transpose(nodes: map<nat, NodeData>) returns (t: map<nat, NodeData>)
    ensures forall u, w :: Count(Succ(t, w), u) == Count(Succ(nodes, u), w)
    ensures forall w :: w in t ==> |t[w].edges| > 0
  {
    t := map[];
    var rest := nodes.Keys;
    ghost var keys: seq<nat> := [];
    while rest != {}
      invariant rest <= nodes.Keys && Distinct(keys)
      invariant forall x :: x in keys <==> x in nodes.Keys - rest
      invariant t == TransposeOf(nodes, keys)
      decreases rest
    {
      var u :| u in rest;
      var es := Succ(nodes, u);
      ghost var t0 := t;
      for j := 0 to |es|
        invariant t == PushAll(t0, u, es[..j])
      {
        assert es[..j + 1][..j] == es[..j];
        t := PushEdge(t, es[j], u);
      }
      assert es[..|es|] == es;
      assert (keys + [u])[..|keys|] == keys;
      DistinctPush(keys, u);
      keys := keys + [u];
      rest := rest - {u};
    }
    TransposeOfNonEmpty(nodes, keys);
    forall u, w ensures Count(Succ(t, w), u) == Count(Succ(nodes, u), w) {
      TransposeOfCount(nodes, keys, u, w);
      if u !in keys {
        assert Succ(nodes, u) == [];
      }
    }
  }

  /** An edge of the transpose comes from an edge of the graph. */
  lemma TransposedEdge(nodes: map<nat, NodeData>, t: map<nat, NodeData>, w: nat, u: nat)
    requires Count(Succ(t, w), u) == Count(Succ(nodes, u), w)
    requires u in Succ(t, w)
    ensures u in nodes && w in nodes[u].edges
  {
    CountPositive(Succ(t, w), u);
    CountPositive(Succ(nodes, u), w);
  }

  /** The transpose of a graph over `1..n` is one too. */
  lemma TransposeInRange(nodes: map<nat, NodeData>, t: map<nat, NodeData>, n: nat)
    requires InRange(nodes, n)
    requires forall u, w :: Count(Succ(t, w), u) == Count(Succ(nodes, u), w)
    requires forall w :: w in t ==> |t[w].edges| > 0
    ensures InRange(t, n)
  {
    forall w | w in t ensures 1 <= w <= n && forall j :: 0 <= j < |t[w].edges| ==> 1 <= t[w].edges[j] <= n {
      assert Succ(t, w) == t[w].edges;
      forall j | 0 <= j < |t[w].edges| ensures 1 <= t[w].edges[j] <= n {
        TransposedEdge(nodes, t, w, t[w].edges[j]);
      }
      var u := t[w].edges[0];
      TransposedEdge(nodes, t, w, u);
      var i :| 0 <= i < |nodes[u].edges| && nodes[u].edges[i] == w;
    }
  }

  /** `std::reverse`. */
  function Reverse(s: seq<nat>): (r: seq<nat>)
    ensures |r| == |s| && forall i :: 0 <= i < |s| ==> r[i] == s[|s| - 1 - i]
  {
    seq(|s|, i requires 0 <= i < |s| => s[|s| - 1 - i])
  }

  /** Reversing keeps the elements and their distinctness. */
  lemma ReverseSame(s: seq<nat>)
    ensures (forall x :: x in Reverse(s) <==> x in s) && (Distinct(s) ==> Distinct(Reverse(s)))
  {
    var r := Reverse(s);
    forall x | x in s ensures x in r {
      var i :| 0 <= i < |s| && s[i] == x;
      assert r[|s| - 1 - i] == x;
    }
  }

  /** The components one after the other. */
  function Flatten(cs: seq<seq<nat>>): seq<nat>
    decreases |cs|
  {
    if cs == [] then [] else Flatten(cs[..|cs| - 1]) + cs[|cs| - 1]
  }

  lemma FlattenPush(cs: seq<seq<nat>>, c: seq<nat>)
    ensures Flatten(cs + [c]) == Flatten(cs) + c
  {
    assert (cs + [c])[..|cs|] == cs;
  }

  /** An appended segment, seen on its own. */
  lemma ShiftAppended(init: seq<bool>, order: seq<nat>, r: seq<nat>, marks: seq<bool>, nodes: map<nat, NodeData>)
    requires Appended(init, order, r, marks, nodes, -1)
    ensures Appended(init, [], r[|order|..], marks, nodes, -1) && r == order + r[|order|..]
  {
    var seg := r[|order|..];
    assert seg[0..] == seg;
    assert r == r[..|order|] + seg;
    forall k | 0 <= k < |seg| ensures 1 <= seg[k] < |marks| && !init[seg[k]] {
      assert seg[k] == r[|order| + k];
    }
  }

  /**
   * A segment appended to the marked vertices `done` (marked exactly
   * when listed there) leaves the marks listing `done + seg`, each vertex
   * once.
   */
  lemma JoinSegment(init: seq<bool>, marks: seq<bool>, done: seq<nat>, seg: seq<nat>, nodes: map<nat, NodeData>)
    requires Appended(init, [], seg, marks, nodes, -1)
    requires (forall x :: 0 <= x < |init| ==> (init[x] <==> x in done)) && Distinct(done)
    requires forall x :: x in done ==> x < |init|
    ensures forall x :: 0 <= x < |marks| ==> (marks[x] <==> x in done + seg)
    ensures Distinct(done + seg) && forall x :: x in seg ==> 1 <= x < |marks|
  {
    assert seg[0..] == seg;
    forall x | 0 <= x < |marks| ensures marks[x] <==> x in done + seg {
      assert x in done + seg <==> x in done || x in seg;
    }
    forall a, b | 0 <= a < b < |done + seg| ensures (done + seg)[a] != (done + seg)[b] {
      if a < |done| && b >= |done| {
        assert (done + seg)[b] == seg[b - |done|];
        assert !init[seg[b - |done|]];
      }
    }
  }

  /**
   * Every referrer of a vertex of the `k`-th component lies in that
   * component or an earlier one: the components come in a topological
   * order of the condensed graph.
   */
  ghost predicate ReferrersEarlier(nodes: map<nat, NodeData>, components: seq<seq<nat>>) {
    forall k, u, j :: 0 <= k < |components| && u in nodes && 0 <= j < |nodes[u].edges| && nodes[u].edges[j] in components[k] ==>
      u in Flatten(components[..k + 1])
  }

  /**
   * `condense`, Kosaraju's algorithm: a first depth-first pass over
   * `1..n` records the vertices in post-order; a second pass over the
   * transposed graph, in reverse post-order, collects one component per
   * unmarked vertex. The components are non-empty, every vertex of
   * `1..n` is in exactly one of them, and no referrer comes later than
   * the vertices it refers to.
   */
  method Condense(nodes: map<nat, NodeData>, n: nat) returns (components: seq<seq<nat>>)
    requires InRange(nodes, n)
    ensures forall k :: 0 <= k < |components| ==> components[k] != []
    ensures Distinct(Flatten(components)) && forall x :: x in Flatten(components) <==> 1 <= x <= n
    ensures ReferrersEarlier(nodes, components)
  {
    var visited := new bool[n + 1](_ => false);
    var order := FinishOrder(nodes, visited);
    var transposed := Transpose(nodes);
    TransposeInRange(nodes, transposed, n);
    ReverseSame(order);
    order := Reverse(order);
    forall i | 0 <= i < visited.Length {
      visited[i] := false;
    }
    components := CollectComponents(nodes, transposed, order, visited);
  }

  /** The first pass of `condense`: `dfs1` from every unmarked vertex of `1..n`, each vertex once, in finishing order. */
  method FinishOrder(nodes: map<nat, NodeData>, visited: array<bool>) returns (order: seq<nat>)
    requires visited.Length >= 1 && InRange(nodes, visited.Length - 1)
    requires forall x :: 0 <= x < visited.Length ==> !visited[x]
    modifies visited
    ensures Distinct(order) && forall x :: x in order <==> 1 <= x < visited.Length
  {
    order := [];
    for i := 1 to visited.Length
      invariant forall x :: 0 <= x < visited.Length ==> (visited[x] <==> x in order)
      invariant Distinct(order) && forall x :: x in order ==> 1 <= x < visited.Length
      invariant forall x :: 1 <= x < i ==> visited[x]
    {
      if !visited[i] {
        ghost var init := visited[..];
        ghost var before := order;
        order := Dfs1(i, nodes, order, visited);
        ShiftAppended(init, before, order, visited[..], nodes);
        JoinSegment(init, visited[..], before, order[|before|..], nodes);
      }
    }
  }

  /**
   * The second pass of `condense`: `dfs1` on the transposed graph from
   * every unmarked vertex, in the order given, each run one component.
   */
  method CollectComponents(nodes: map<nat, NodeData>, transposed: map<nat, NodeData>, order: seq<nat>, visited: array<bool>)
    returns (components: seq<seq<nat>>)
    requires visited.Length >= 1 && InRange(transposed, visited.Length - 1)
    requires forall u, w :: Count(Succ(transposed, w), u) == Count(Succ(nodes, u), w)
    requires forall x :: 0 <= x < visited.Length ==> !visited[x]
    requires forall x :: x in order <==> 1 <= x < visited.Length
    modifies visited
    ensures forall k :: 0 <= k < |components| ==> components[k] != []
    ensures Distinct(Flatten(components)) && forall x :: x in Flatten(components) <==> 1 <= x < visited.Length
    ensures ReferrersEarlier(nodes, components)
  {
    assert forall m :: 0 <= m < |order| ==> 1 <= order[m] < visited.Length by {
      forall m | 0 <= m < |order| ensures 1 <= order[m] < visited.Length {
        assert order[m] in order;
      }
    }
    components := [];
    for k := 0 to |order|
      invariant forall x :: 0 <= x < visited.Length ==> (visited[x] <==> x in Flatten(components))
      invariant Distinct(Flatten(components)) && forall x :: x in Flatten(components) ==> 1 <= x < visited.Length
      invariant forall m :: 0 <= m < |components| ==> components[m] != []
      invariant forall m :: 0 <= m < k ==> visited[order[m]]
      invariant ReferrersEarlier(nodes, components)
    {
      var v := order[k];
      if !visited[v] {
        ghost var init := visited[..];
        var currentComponent := Dfs1(v, transposed, [], visited);
        JoinSegment(init, visited[..], Flatten(components), currentComponent, transposed);
        FlattenPush(components, currentComponent);
        ReferrersOfLast(nodes, transposed, components, currentComponent, visited[..]);
        components := components + [currentComponent];
      }
    }
    forall x | 1 <= x < visited.Length ensures x in Flatten(components) {
      assert x in order;
      var m :| 0 <= m < |order| && order[m] == x;
      assert visited[order[m]];
    }
  }

  /** The component just collected keeps the referrers in order. */
  lemma ReferrersOfLast(nodes: map<nat, NodeData>, t: map<nat, NodeData>, components: seq<seq<nat>>, c: seq<nat>, marks: seq<bool>)
    requires forall u, w :: Count(Succ(t, w), u) == Count(Succ(nodes, u), w)
    requires ReferrersEarlier(nodes, components)
    requires Closed(t, c, marks)
    requires forall x :: 0 <= x < |marks| ==> (marks[x] <==> x in Flatten(components) + c)
    ensures ReferrersEarlier(nodes, components + [c])
  {
    var cs := components + [c];
    FlattenPush(components, c);
    forall k, u, j | 0 <= k < |cs| && u in nodes && 0 <= j < |nodes[u].edges| && nodes[u].edges[j] in cs[k]
      ensures u in Flatten(cs[..k + 1])
    {
      if k < |components| {
        assert cs[k] == components[k] && cs[..k + 1] == components[..k + 1];
      } else {
        var w := nodes[u].edges[j];
        assert cs[..k + 1] == cs;
        CountPositive(Succ(nodes, u), w);
        assert Count(Succ(nodes, u), w) > 0;
        CountPositive(Succ(t, w), u);
        var i :| 0 <= i < |c| && c[i] == w;
        var jj :| 0 <= jj < |Succ(t, w)| && Succ(t, w)[jj] == u;
        assert marks[Succ(t, c[i])[jj]];
      }
    }
  }
}
