/**
 * The back-reference records of the GC-root path finder: every record keeps
 * the referrer's tag (-1 for a heap root) and the reference kind, and some
 * kinds carry a payload taken from JVMTI's `jvmtiHeapReferenceInfo` union.
 */
module Infos {
  import opened Jvmti

  /** The members of `jvmtiHeapReferenceInfo` the agent reads. */
  datatype HeapReferenceInfo = HeapReferenceInfo(
    fieldIndex: int,
    arrayIndex: int,
    constantPoolIndex: int,
    stackThreadId: int, stackDepth: int, stackSlot: int, stackMethod: int,
    jniThreadId: int, jniDepth: int, jniMethod: int)

  /** The three record classes: no details, `InfoWithIndex` and `StackInfo`. */
  datatype Payload =
    | NoDetails
    | WithIndex(index: int)
    | Stack(threadId: int, slot: int, depth: int, methodId: int)

  datatype ReferenceInfo = ReferenceInfo(tag: int, kind: int, payload: Payload)

  /** `createReferenceInfo`: the payload the kind selects. */
  function CreateReferenceInfo(tag: int, kind: int, info: HeapReferenceInfo): (r: ReferenceInfo)
    ensures r.tag == tag && r.kind == kind
    ensures r.payload.WithIndex? <==> kind in {FIELD, STATIC_FIELD, ARRAY_ELEMENT, CONSTANT_POOL}
    ensures r.payload.Stack? <==> kind in {STACK_LOCAL, JNI_LOCAL}
    ensures kind == FIELD || kind == STATIC_FIELD ==> r.payload.index == info.fieldIndex
    ensures kind == ARRAY_ELEMENT ==> r.payload.index == info.arrayIndex
    ensures kind == CONSTANT_POOL ==> r.payload.index == info.constantPoolIndex
    ensures kind == STACK_LOCAL ==>
              r.payload == Stack(info.stackThreadId, info.stackSlot, info.stackDepth, info.stackMethod)
    ensures kind == JNI_LOCAL ==> r.payload == Stack(info.jniThreadId, -1, info.jniDepth, info.jniMethod)
  {
    var payload :=
      if kind == STATIC_FIELD || kind == FIELD then WithIndex(info.fieldIndex)
      else if kind == ARRAY_ELEMENT then WithIndex(info.arrayIndex)
      else if kind == CONSTANT_POOL then WithIndex(info.constantPoolIndex)
      else if kind == STACK_LOCAL then Stack(info.stackThreadId, info.stackSlot, info.stackDepth, info.stackMethod)
      else if kind == JNI_LOCAL then Stack(info.jniThreadId, -1, info.jniDepth, info.jniMethod)
      else NoDetails;
    ReferenceInfo(tag, kind, payload)
  }

  /**
   * What `getReferenceInfo` hands to Java: nothing, a one-element index
   * array, or the stack position `[threadId, depth, slot]` with the method
   * (0 for no method; its name lookup is not part of this model).
   */
  datatype Reported = NullInfo | IndexArray(values: seq<int>) | StackPosition(position: seq<int>, methodId: int)

  /** `buildStackInfo`: depth comes before slot, unlike the constructor's argument order. */
  function BuildStackInfo(threadId: int, depth: int, slot: int): (a: seq<int>)
    ensures |a| == 3 && a[0] == threadId && a[1] == depth && a[2] == slot
  {
    [threadId, depth, slot]
  }

  function GetReferenceInfo(r: ReferenceInfo): (v: Reported)
    ensures v.NullInfo? <==> r.payload.NoDetails?
    ensures r.payload.WithIndex? ==> v == IndexArray([r.payload.index])
    ensures r.payload.Stack? ==> v.StackPosition? && v.methodId == r.payload.methodId
  {
    match r.payload
    case NoDetails => NullInfo
    case WithIndex(i) => IndexArray([i])
    case Stack(threadId, slot, depth, methodId) => StackPosition(BuildStackInfo(threadId, depth, slot), methodId)
  }

  /** Reads a stack position back as thread, slot and depth. */
  function DecodeStackPosition(a: seq<int>): (r: Option<(int, int, int)>)
    ensures r.Some? <==> |a| == 3
  {
    if |a| == 3 then Some((a[0], a[2], a[1])) else None
  }

  /** A reported stack record decodes to the thread, slot and depth it was created with. */
  lemma StackRoundTrip(tag: int, kind: int, info: HeapReferenceInfo)
    requires kind == STACK_LOCAL || kind == JNI_LOCAL
    ensures var v := GetReferenceInfo(CreateReferenceInfo(tag, kind, info));
            v.StackPosition? &&
            DecodeStackPosition(v.position) ==
              if kind == STACK_LOCAL then Some((info.stackThreadId, info.stackSlot, info.stackDepth))
              else Some((info.jniThreadId, -1, info.jniDepth))
  {
  }
}
