/**
 * The test harness's reading of agent results: error codes, reference-kind
 * names, the remapping of path indices to a sorted order, the text of a
 * root path entry, and the cycle-safe rendering of an object graph.
 */
module TestBase {
  import opened Jvmti
  import opened Text
  import Counting

  /** The error codes with their ids. */
  datatype MemoryAgentErrorCode = OK | TIMEOUT | CANCELLED {
    function Id(): int {
      match this
      case OK => 0
      case TIMEOUT => 1
      case CANCELLED => 2
    }
  }

  /** `MemoryAgentErrorCode.valueOf`: the code with that id, `None` (null) for any other. */
  function ValueOf(value: int): (r: Option<MemoryAgentErrorCode>)
    ensures r.Some? <==> 0 <= value <= 2
    ensures r.Some? ==> r.value.Id() == value
  {
    if value == 0 then Some(OK) else if value == 1 then Some(TIMEOUT) else if value == 2 then Some(CANCELLED) else None
  }

  lemma ValueOfId(code: MemoryAgentErrorCode)
    ensures ValueOf(code.Id()) == Some(code)
  {
  }

  /** What every agent call returns: an `int[]` whose first entry is the status, and the payload. */
  datatype AgentResult<T> = AgentResult(status: seq<int>, payload: T)

  /** The code named by the first status entry. */
  function GetErrorCode<T>(result: AgentResult<T>): (r: Option<MemoryAgentErrorCode>)
    requires |result.status| >= 1
    ensures r.Some? ==> r.value.Id() == result.status[0]
    ensures r.None? <==> result.status[0] !in {0, 1, 2}
  {
    ValueOf(result.status[0])
  }

  /** The payload. */
  function GetResult<T>(result: AgentResult<T>): (r: T)
    ensures r == result.payload
  {
    result.payload
  }

  /** The reference kinds with a name in `referenceDescription`. */
  predicate KnownKind(kind: int) {
    1 <= kind <= 10 || 21 <= kind <= 27 || kind == 42
  }

  /** `referenceDescription.get(kind)`. */
  function ReferenceDescription(kind: int): (r: Option<string>)
    ensures r.Some? <==> KnownKind(kind)
  {
    match kind
    case 1 => Some("CLASS")
    case 2 => Some("FIELD")
    case 3 => Some("ARRAY_ELEMENT")
    case 4 => Some("CLASS_LOADER")
    case 5 => Some("SIGNERS")
    case 6 => Some("PROTECTION_DOMAIN")
    case 7 => Some("INTERFACE")
    case 8 => Some("STATIC_FIELD")
    case 9 => Some("CONSTANT_POOL")
    case 10 => Some("SUPERCLASS")
    case 21 => Some("JNI_GLOBAL")
    case 22 => Some("SYSTEM_CLASS")
    case 23 => Some("MONITOR")
    case 24 => Some("STACK_LOCAL")
    case 25 => Some("JNI_LOCAL")
    case 26 => Some("THREAD")
    case 27 => Some("OTHER")
    case 42 => Some("TRUNCATE")
    case _ => None
  }

  /** The kind a name stands for, read back: -1 for a text that names none. */
  function KindOfName(name: string): int {
    if name == "CLASS" then 1 else if name == "FIELD" then 2
    else if name == "ARRAY_ELEMENT" then 3 else if name == "CLASS_LOADER" then 4
    else if name == "SIGNERS" then 5 else if name == "PROTECTION_DOMAIN" then 6
    else if name == "INTERFACE" then 7 else if name == "STATIC_FIELD" then 8
    else if name == "CONSTANT_POOL" then 9 else if name == "SUPERCLASS" then 10
    else if name == "JNI_GLOBAL" then 21 else if name == "SYSTEM_CLASS" then 22
    else if name == "MONITOR" then 23 else if name == "STACK_LOCAL" then 24
    else if name == "JNI_LOCAL" then 25 else if name == "THREAD" then 26
    else if name == "OTHER" then 27 else if name == "TRUNCATE" then 42
    else -1
  }

  /** Every named kind has its own name. */
  lemma ReferenceDescriptionDistinct(kind: int)
    requires KnownKind(kind)
    ensures KindOfName(ReferenceDescription(kind).value) == kind
  {
  }

  /** Java's decimal text of an integer. */
  function IntToString(n: int): (s: string)
    ensures |s| >= 1
    ensures n >= 0 ==> s == NatToString(n)
    ensures n < 0 ==> s == "-" + NatToString(-n)
  {
    if n >= 0 then NatToString(n) else "-" + NatToString(-n)
  }

  /** A Java value as `interpretInfo` meets it. */
  datatype JavaValue =
    | NullValue
    | IntArray(ints: seq<int>)
    | LongArray(longs: seq<int>)
    | ObjectArray(elems: seq<JavaValue>)
    | OtherObject

  /** The shape `interpretInfo` casts the info of a kind to; a mismatch is a thrown exception. */
  predicate InfoFits(kind: int, info: JavaValue) {
    if kind in {2, 8, 3, 9, 42} then info.IntArray? && |info.ints| >= 1
    else if kind in {24, 25} then
      info.ObjectArray? && |info.elems| == 2 && info.elems[0].LongArray? && |info.elems[0].longs| >= 3
    else true
  }

  /**
   * The detail text of a reference: the index for fields,
   * static fields, array elements and constant-pool entries, the count for
   * a truncated list, thread, depth and slot for stack and JNI locals, and
   * "no details" for everything else.
   */
  function InterpretInfo(kind: int, info: JavaValue): (r: Option<string>)
    ensures r.Some? <==> InfoFits(kind, info)
    ensures r.Some? && kind in {2, 8, 3, 9} ==> r.value == "index = " + IntToString(info.ints[0])
    ensures r.Some? && kind == 42 ==> r.value == IntToString(info.ints[0]) + " more"
    ensures r.Some? && kind !in {2, 8, 3, 9, 42, 24, 25} ==> r.value == "no details"
  {
    if kind == 2 || kind == 8 || kind == 3 || kind == 9 then
      if info.IntArray? && |info.ints| >= 1 then Some("index = " + IntToString(info.ints[0])) else None
    else if kind == 42 then
      if info.IntArray? && |info.ints| >= 1 then Some(IntToString(info.ints[0]) + " more") else None
    else if kind == 24 || kind == 25 then
      if info.ObjectArray? && |info.elems| == 2 && info.elems[0].LongArray? && |info.elems[0].longs| >= 3 then
        var stack := info.elems[0].longs;
        Some("thread id = " + IntToString(stack[0]) + " depth = " + IntToString(stack[1]) + " slot = " + IntToString(stack[2]))
      else None
    else Some("no details")
  }

  /** `String.compareTo(a, b) <= 0`: character by character, a proper prefix first. */
  predicate LexLe(a: string, b: string) {
    |a| == 0 || (|b| > 0 && (a[0] < b[0] || (a[0] == b[0] && LexLe(a[1..], b[1..]))))
  }

  lemma {:induction false} LexTotal(a: string, b: string)
    ensures LexLe(a, b) || LexLe(b, a)
  {
    if |a| > 0 && |b| > 0 && a[0] == b[0] {
      LexTotal(a[1..], b[1..]);
    }
  }

  lemma {:induction false} LexTrans(a: string, b: string, c: string)
    requires LexLe(a, b) && LexLe(b, c)
    ensures LexLe(a, c)
  {
    if |a| > 0 && a[0] == b[0] && b[0] == c[0] {
      LexTrans(a[1..], b[1..], c[1..]);
    }
  }

  lemma {:induction false} LexAntisymmetric(a: string, b: string)
    requires LexLe(a, b) && LexLe(b, a)
    ensures a == b
  {
    if |a| > 0 {
      LexAntisymmetric(a[1..], b[1..]);
      assert a == [a[0]] + a[1..] && b == [b[0]] + b[1..];
    }
  }

  predicate Sorted(s: seq<string>) {
    forall i, j :: 0 <= i < j < |s| ==> LexLe(s[i], s[j])
  }

  /** `x` put into its place in the sorted `s`. */
  function Insert(x: string, s: seq<string>): (r: seq<string>)
    requires Sorted(s)
    ensures Sorted(r) && multiset(r) == multiset(s) + multiset{x}
  {
    if |s| == 0 then [x]
    else if LexLe(x, s[0]) then
      assert forall j :: 0 <= j < |s| ==> LexLe(x, s[j]) by {
        forall j | 0 <= j < |s| ensures LexLe(x, s[j]) {
          if j > 0 {
            LexTrans(x, s[0], s[j]);
          }
        }
      }
      [x] + s
    else
      LexTotal(x, s[0]);
      var rest := Insert(x, s[1..]);
      assert s == [s[0]] + s[1..];
      assert forall j :: 0 <= j < |rest| ==> LexLe(s[0], rest[j]) by {
        forall j | 0 <= j < |rest| ensures LexLe(s[0], rest[j]) {
          assert rest[j] in multiset(s[1..]) + multiset{x};
          if rest[j] != x {
            var k :| 0 <= k < |s[1..]| && s[1..][k] == rest[j];
            assert s[k + 1] == rest[j];
          }
        }
      }
      [s[0]] + rest
  }

  /** `List.sort` with `String::compareTo`: the same strings, in order. */
  function Sort(s: seq<string>): (r: seq<string>)
    ensures Sorted(r) && multiset(r) == multiset(s)
  {
    if |s| == 0 then []
    else
      assert s == [s[0]] + s[1..];
      Insert(s[0], Sort(s[1..]))
  }

  lemma {:induction false} LexReflexive(a: string)
    ensures LexLe(a, a)
  {
    if |a| > 0 {
      LexReflexive(a[1..]);
    }
  }

  /** The first of a sorted list is no greater than anything in it. */
  lemma SortedFirst(s: seq<string>, x: string)
    requires Sorted(s) && x in s
    ensures LexLe(s[0], x)
  {
    var i :| 0 <= i < |s| && s[i] == x;
    if i == 0 {
      LexReflexive(x);
    }
  }

  /** Two sorted orders of the same strings are the same list: the order alone fixes the text. */
  lemma {:induction false} SortedUnique(a: seq<string>, b: seq<string>)
    requires Sorted(a) && Sorted(b) && multiset(a) == multiset(b)
    ensures a == b
  {
    if |a| == 0 {
      assert |multiset(b)| == 0;
    } else {
      SortedHeads(a, b);
      SortedUnique(a[1..], b[1..]);
      SameCons(a, b);
    }
  }

  /**
   * Two sorted orders of the same strings start with the same string, and
   * what follows it is again two sorted orders of the same strings.
   */
  lemma SortedHeads(a: seq<string>, b: seq<string>)
    requires Sorted(a) && Sorted(b) && multiset(a) == multiset(b) && |a| > 0
    ensures |b| == |a| && a[0] == b[0]
    ensures Sorted(a[1..]) && Sorted(b[1..]) && multiset(a[1..]) == multiset(b[1..])
  {
    assert |b| == |multiset(b)| == |multiset(a)| == |a|;
    assert a[0] in multiset(b) && b[0] in multiset(a);
    SortedFirst(b, a[0]);
    SortedFirst(a, b[0]);
    LexAntisymmetric(a[0], b[0]);
    Tail(a);
    Tail(b);
  }

  lemma SameCons<T>(a: seq<T>, b: seq<T>)
    requires |a| > 0 && |b| > 0 && a[0] == b[0] && a[1..] == b[1..]
    ensures a == b
  {
    assert a == [a[0]] + a[1..] && b == [b[0]] + b[1..];
  }

  lemma Tail(s: seq<string>)
    requires Sorted(s) && |s| > 0
    ensures Sorted(s[1..]) && multiset(s[1..]) == multiset(s) - multiset{s[0]}
  {
    assert s == [s[0]] + s[1..];
  }

  /** `String.join(", ", parts)`. */
  function JoinComma(parts: seq<string>): string {
    if |parts| == 0 then []
    else if |parts| == 1 then parts[0]
    else parts[0] + ", " + JoinComma(parts[1..])
  }

  /** The references as `buildReferencesString` renders them, before sorting. */
  function Reference(index: int, kind: int, info: JavaValue, indicesMap: seq<int>): (r: Option<string>)
    ensures r.Some? <==> (index == -1 || 0 <= index < |indicesMap|) && InfoFits(kind, info)
    ensures r.Some? && index == -1 ==> "[root :: " <= r.value
    ensures r.Some? && index != -1 ==> "[" + IntToString(indicesMap[index]) + " :: " <= r.value
  {
    var refFrom := if index == -1 then Some("root")
                   else if 0 <= index < |indicesMap| then Some(IntToString(indicesMap[index]))
                   else None;
    var kindName := var d := ReferenceDescription(kind); if d.Some? then d.value else "null";
    var detail := InterpretInfo(kind, info);
    if refFrom.Some? && detail.Some? then
      assert "[" + refFrom.value + " :: " <= "[" + refFrom.value + " :: " + kindName + " :: " + detail.value + "]";
      Some("[" + refFrom.value + " :: " + kindName + " :: " + detail.value + "]")
    else None
  }

  /**
   * The three arrays must have one length; every reference
   * is rendered (the referrer remapped through `indicesMap`, -1 as "root"),
   * the texts sorted and joined with ", ". A failed assertion, cast or
   * index is `None`.
   */
  method BuildReferencesString(indices: seq<int>, kinds: seq<int>, infos: seq<JavaValue>, indicesMap: seq<int>)
    returns (r: Option<string>, ghost references: seq<string>)
    ensures r.Some? <==> |indices| == |kinds| == |infos| &&
                         forall i :: 0 <= i < |indices| ==> Reference(indices[i], kinds[i], infos[i], indicesMap).Some?
    ensures r.Some? ==> |references| == |indices| && r.value == JoinComma(Sort(references)) &&
                        forall i :: 0 <= i < |indices| ==> Reference(indices[i], kinds[i], infos[i], indicesMap) == Some(references[i])
  {
    var list := [];
    references := list;
    if |indices| != |kinds| || |kinds| != |infos| {
      return None, references;
    }
    for i := 0 to |indices|
      invariant |list| == i
      invariant forall k :: 0 <= k < i ==> Reference(indices[k], kinds[k], infos[k], indicesMap) == Some(list[k])
    {
      var reference := Reference(indices[i], kinds[i], infos[i], indicesMap);
      if reference.None? {
        return None, list;
      }
      list := list + [reference.value];
    }
    return Some(JoinComma(Sort(list))), list;
  }

  /** The joined text depends only on which references there are, not on their order. */
  lemma ReferencesOrderFree(a: seq<string>, b: seq<string>)
    requires multiset(a) == multiset(b)
    ensures JoinComma(Sort(a)) == JoinComma(Sort(b))
  {
    SortedUnique(Sort(a), Sort(b));
  }

  /** No two positions of `s` hold the same object. */
  predicate Distinct(s: seq<nat>) {
    forall p, q :: 0 <= p < |s| && 0 <= q < |s| && s[p] == s[q] ==> p == q
  }

  /** `k` is the only position of `x` in `s`. */
  predicate OnlyAt(s: seq<nat>, x: nat, k: int) {
    0 <= k < |s| && s[k] == x && forall j :: 0 <= j < |s| && s[j] == x ==> j == k
  }

  /**
   * The position of `value` by identity, -1 when it is
   * absent; a second position fails the test (`None`).
   */
  method IndexOfReference(objects: seq<nat>, value: nat) returns (r: Option<int>)
    ensures r == Some(-1) <==> value !in objects
    ensures r.Some? && r.value != -1 ==> OnlyAt(objects, value, r.value)
    ensures r.None? <==> exists p, q :: 0 <= p < q < |objects| && objects[p] == value && objects[q] == value
  {
    var result := -1;
    for i := 0 to |objects|
      invariant result == -1 ==> value !in objects[..i]
      invariant result != -1 ==> 0 <= result < i && objects[result] == value &&
                                 forall k :: 0 <= k < i && objects[k] == value ==> k == result
    {
      if objects[i] == value {
        if result != -1 {
          return None;
        }
        result := i;
      }
      assert objects[..i + 1] == objects[..i] + [objects[i]];
    }
    assert objects[..|objects|] == objects;
    return Some(result);
  }

  /** An object at one position only is counted once. */
  lemma CountOne(s: seq<nat>, x: nat, k: int)
    requires OnlyAt(s, x, k)
    ensures multiset(s)[x] == 1
  {
    assert s == s[..k] + [s[k]] + s[k + 1..];
    assert x !in s[..k] && x !in s[k + 1..];
  }

  /** An object at two positions is counted at least twice. */
  lemma CountTwo(s: seq<nat>, p: int, q: int)
    requires 0 <= p < q < |s| && s[p] == s[q]
    ensures multiset(s)[s[p]] >= 2
  {
    assert s == s[..p] + [s[p]] + s[p + 1..q] + [s[q]] + s[q + 1..];
  }

  /**
   * `sorted` is the objects in the order of their text;
   * each sorted object's old position goes into `newIndexToOldIndex` and
   * its new position into `oldIndexToNewIndex`. With distinct objects the
   * two are inverse permutations; an object listed twice fails the test.
   */
  method RemapIndices(objects: seq<nat>, sorted: seq<nat>) returns (r: Option<(array<int>, array<int>)>)
    requires multiset(sorted) == multiset(objects)
    ensures |sorted| == |objects|
    ensures r.Some? <==> Distinct(objects)
    ensures r.Some? ==>
              var oldToNew, newToOld := r.value.0, r.value.1;
              && oldToNew.Length == newToOld.Length == |objects| && fresh(oldToNew) && fresh(newToOld)
              && (forall i :: 0 <= i < |objects| ==>
                    0 <= newToOld[i] < |objects| && objects[newToOld[i]] == sorted[i] && oldToNew[newToOld[i]] == i)
              && (forall j :: 0 <= j < |objects| ==> 0 <= oldToNew[j] < |objects| && newToOld[oldToNew[j]] == j)
  {
    var n := |objects|;
    assert |sorted| == |multiset(sorted)| == n;
    var oldIndexToNewIndex := new int[n];
    var newIndexToOldIndex := new int[n];
    for i := 0 to n
      invariant forall k :: 0 <= k < i ==>
                  OnlyAt(objects, sorted[k], newIndexToOldIndex[k]) && oldIndexToNewIndex[newIndexToOldIndex[k]] == k
    {
      assert sorted[i] in multiset(objects);
      var oldIndex := IndexOfReference(objects, sorted[i]);
      if oldIndex.None? {
        var p, q :| 0 <= p < q < n && objects[p] == sorted[i] && objects[q] == sorted[i];
        return None;
      }
      forall k | 0 <= k < i ensures newIndexToOldIndex[k] != oldIndex.value {
        if sorted[k] == sorted[i] {
          CountOne(objects, sorted[i], oldIndex.value);
          CountTwo(sorted, k, i);
        }
      }
      oldIndexToNewIndex[oldIndex.value] := i;
      newIndexToOldIndex[i] := oldIndex.value;
    }
    forall j | 0 <= j < n ensures 0 <= oldIndexToNewIndex[j] < n && newIndexToOldIndex[oldIndexToNewIndex[j]] == j {
      assert objects[j] in multiset(sorted);
      var i :| 0 <= i < n && sorted[i] == objects[j];
      assert OnlyAt(objects, sorted[i], newIndexToOldIndex[i]);
    }
    assert Distinct(objects) by {
      forall p, q | 0 <= p < n && 0 <= q < n && objects[p] == objects[q] ensures p == q {
        assert objects[p] in multiset(sorted);
        var i :| 0 <= i < n && sorted[i] == objects[p];
        assert OnlyAt(objects, sorted[i], newIndexToOldIndex[i]);
      }
    }
    return Some((oldIndexToNewIndex, newIndexToOldIndex));
  }

  /** A reference `asString` meets: null or an object of the heap. */
  datatype Ref = Null | Obj(id: nat)

  /** An object as `asStringImpl` sees it: an object array, or anything else with its `toString()` text. */
  datatype HeapObject = ObjArray(elems: seq<Ref>) | Plain(text: string)

  type Heap = map<nat, HeapObject>

  predicate InHeap(heap: Heap, r: Ref) {
    r.Null? || r.id in heap
  }

  /** Every array of the heap refers only to null and objects of the heap. */
  predicate Closed(heap: Heap) {
    forall id :: id in heap && heap[id].ObjArray? ==> forall e :: e in heap[id].elems ==> InHeap(heap, e)
  }

  /** Everything `visited` can hold. */
  function Universe(heap: Heap): set<Ref> {
    {Null} + set id | id in heap :: Obj(id)
  }

  /** The references not yet visited: what bounds the recursion. */
  function Unvisited(heap: Heap, visited: map<Ref, nat>): nat {
    |Universe(heap) - visited.Keys|
  }

  /** `visited` numbers its keys `0..n-1` in the order they were first met. */
  predicate Numbering(visited: map<Ref, nat>) {
    && (forall r :: r in visited ==> visited[r] < |visited|)
    && (forall r, r' :: r in visited && r' in visited && visited[r] == visited[r'] ==> r == r')
  }

  /** `visited'` keeps every entry of `visited`. */
  predicate Extends(visited: map<Ref, nat>, visited': map<Ref, nat>) {
    forall r :: r in visited ==> r in visited' && visited'[r] == visited[r]
  }

  predicate LineTerminator(c: char) {
    c == '\n' || c == '\r' || c == '\U{85}' || c == '\U{2028}' || c == '\U{2029}'
  }

  /** The first position of `s` at which `p` holds, or `|s|`. */
  function FindFirst(s: string, p: char -> bool): (k: nat)
    ensures k <= |s| && (k < |s| ==> p(s[k])) && forall j :: 0 <= j < k ==> !p(s[j])
  {
    if s == [] then 0 else if p(s[0]) then 0 else 1 + FindFirst(s[1..], p)
  }

  /**
   * `replaceFirst("@.*", "")`: from the first '@' up to the next line
   * terminator (the regular expression's '.' does not cross one) is removed.
   */
  function StripAt(s: string): (r: string)
    ensures '@' !in s ==> r == s
    ensures '@' in s ==> exists i, j :: 0 <= i < |s| && i <= j <= |s| && s[i] == '@' && '@' !in s[..i] && r == s[..i] + s[j..] &&
                                        (j == |s| || LineTerminator(s[j])) &&
                                        forall k :: i <= k < j ==> !LineTerminator(s[k])
  {
    var i := FindFirst(s, c => c == '@');
    if i == |s| then
      assert s[..i] == s;
      s
    else
      var j := i + FindFirst(s[i..], LineTerminator);
      assert '@' !in s[..i];
      s[..i] + s[j..]
  }

  /** The next number for a reference not met before keeps the numbering. */
  lemma NumberNext(visited: map<Ref, nat>, obj: Ref)
    requires obj !in visited
    ensures Extends(visited, visited[obj := |visited|])
    ensures Numbering(visited) ==> Numbering(visited[obj := |visited|])
  {
    var v := visited[obj := |visited|];
    assert v.Keys == visited.Keys + {obj};
    assert |v| == |visited| + 1;
  }

  /** A new key taken out of a set leaves fewer of its members missing from the map. */
  lemma RemoveKey<K, V>(u: set<K>, m: map<K, V>, x: K, y: V)
    requires x in u && x !in m
    ensures |u - m[x := y].Keys| < |u - m.Keys|
  {
    assert m[x := y].Keys == m.Keys + {x};
    assert u - m.Keys == (u - m[x := y].Keys) + {x};
  }

  /** Taking one unvisited reference out leaves fewer unvisited. */
  lemma VisitOne(heap: Heap, visited: map<Ref, nat>, obj: Ref)
    requires InHeap(heap, obj) && obj !in visited
    ensures Unvisited(heap, visited[obj := |visited|]) < Unvisited(heap, visited)
  {
    assert obj in Universe(heap) by {
      if obj.Obj? {
        assert obj == Obj(obj.id);
      }
    }
    RemoveKey(Universe(heap), visited, obj, |visited|);
  }

  /** Visiting more leaves no more unvisited. */
  lemma VisitMore(heap: Heap, visited: map<Ref, nat>, visited': map<Ref, nat>)
    requires visited.Keys <= visited'.Keys
    ensures Unvisited(heap, visited') <= Unvisited(heap, visited)
  {
    Counting.SubsetCard(Universe(heap) - visited'.Keys, Universe(heap) - visited.Keys);
  }

  /**
   * A reference met before is `#recursive<k>#` with its
   * first-visit number k; otherwise it gets the next number (null too),
   * and then null is "null", an object array is its elements in brackets
   * and anything else its text with the '@' part stripped. The recursion
   * ends because every level that goes deeper visits something new.
   */
  function AsStringImpl(heap: Heap, obj: Ref, visited: map<Ref, nat>): (r: (string, map<Ref, nat>))
    requires Closed(heap) && InHeap(heap, obj)
    decreases Unvisited(heap, visited), 0
    ensures Extends(visited, r.1) && obj in r.1
    ensures Numbering(visited) ==> Numbering(r.1)
    ensures obj in visited ==> r.0 == "#recursive" + NatToString(visited[obj]) + "#"
    ensures obj !in visited ==> r.1[obj] == |visited|
  {
    if obj in visited then
      ("#recursive" + NatToString(visited[obj]) + "#", visited)
    else
      var v := visited[obj := |visited|];
      NumberNext(visited, obj);
      if obj.Null? then ("null", v)
      else
        match heap[obj.id]
        case Plain(text) => (StripAt(text), v)
        case ObjArray(elems) =>
          VisitOne(heap, visited, obj);
          var inner := AsStringList(heap, elems, v);
          ("[" + inner.0 + "]", inner.1)
  }

  /** The elements' texts joined with ", ", left to right, sharing one `visited` map. */
  function AsStringList(heap: Heap, elems: seq<Ref>, visited: map<Ref, nat>): (r: (string, map<Ref, nat>))
    requires Closed(heap) && forall e :: e in elems ==> InHeap(heap, e)
    decreases Unvisited(heap, visited), |elems| + 1
    ensures Extends(visited, r.1)
    ensures Numbering(visited) ==> Numbering(r.1)
  {
    if |elems| == 0 then ("", visited)
    else
      var first := AsStringImpl(heap, elems[0], visited);
      if |elems| == 1 then first
      else
        VisitMore(heap, visited, first.1);
        var rest := AsStringList(heap, elems[1..], first.1);
        (first.0 + ", " + rest.0, rest.1)
  }

  /** `asString`: rendering with nothing visited yet. */
  function AsString(heap: Heap, obj: Ref): (s: string)
    requires Closed(heap) && InHeap(heap, obj)
  {
    AsStringImpl(heap, obj, map[]).0
  }

  /** A heap with one array that holds itself. */
  const SelfHolder: Heap := map[1 := ObjArray([Obj(1)])]

  lemma InnerSelf()
    ensures AsStringList(SelfHolder, [Obj(1)], map[Obj(1) := 0]).0 == "#recursive0#"
  {
    assert NatToString(0) == "0";
  }

  /** An array holding itself is shown once; the inner mention is its first-visit number. */
  lemma SelfReference()
    ensures AsString(SelfHolder, Obj(1)) == "[#recursive0#]"
  {
    var inner := AsStringList(SelfHolder, [Obj(1)], map[Obj(1) := 0]);
    assert inner.0 == "#recursive0#" by { InnerSelf(); }
    assert map[][Obj(1) := 0] == map[Obj(1) := 0];
    assert AsString(SelfHolder, Obj(1)) == "[" + inner.0 + "]";
    assert "[" + inner.0 + "]" == "[#recursive0#]" by { SelfText(); }
  }

  lemma SelfText()
    ensures "[" + "#recursive0#" + "]" == "[#recursive0#]"
  {
  }

  /** A heap with one array that holds null twice. */
  const TwoNulls: Heap := map[1 := ObjArray([Null, Null])]

  lemma FirstNull()
    ensures AsStringImpl(TwoNulls, Null, map[Obj(1) := 0]) == ("null", map[Obj(1) := 0, Null := 1])
  {
    assert map[Obj(1) := 0][Null := 1] == map[Obj(1) := 0, Null := 1];
  }

  lemma SecondNull()
    ensures AsStringList(TwoNulls, [Null], map[Obj(1) := 0, Null := 1]).0 == "#recursive1#"
  {
    assert NatToString(1) == "1";
  }

  lemma BothNulls()
    ensures AsStringList(TwoNulls, [Null, Null], map[Obj(1) := 0]).0 == "null, #recursive1#"
  {
    var v, v' := map[Obj(1) := 0], map[Obj(1) := 0, Null := 1];
    assert Closed(TwoNulls);
    var first := AsStringImpl(TwoNulls, Null, v);
    assert first == ("null", v') by { FirstNull(); }
    var rest := AsStringList(TwoNulls, [Null], v');
    assert rest.0 == "#recursive1#" by { SecondNull(); }
    assert [Null, Null][1..] == [Null];
    assert AsStringList(TwoNulls, [Null, Null], v).0 == first.0 + ", " + rest.0;
    assert first.0 + ", " + rest.0 == "null, #recursive1#" by { TwoNullsText(); }
  }

  lemma TwoNullsText()
    ensures "null" + ", " + "#recursive1#" == "null, #recursive1#"
  {
  }

  /** A second null is a repeat like any other, numbered after the array that holds it. */
  lemma RepeatedNull()
    ensures AsString(TwoNulls, Obj(1)) == "[null, #recursive1#]"
  {
    var inner := AsStringList(TwoNulls, [Null, Null], map[Obj(1) := 0]);
    assert inner.0 == "null, #recursive1#" by { BothNulls(); }
    assert map[][Obj(1) := 0] == map[Obj(1) := 0];
    assert AsString(TwoNulls, Obj(1)) == "[" + inner.0 + "]";
    assert "[" + inner.0 + "]" == "[null, #recursive1#]" by { BracketText(); }
  }

  lemma BracketText()
    ensures "[" + "null, #recursive1#" + "]" == "[null, #recursive1#]"
  {
  }
}
