/**
 * `utils`: the description of every heap reference kind, the kinds the
 * size estimation of `obect_size` ignores, and the text of a flag tag.
 */
module Utils {
  import opened Jvmti
  import opened Text

  /** `get_reference_type_description`. */
  function ReferenceTypeDescription(kind: int): (s: string)
    ensures |s| == DescriptionLength(kind)
  {
    if CLASS <= kind <= ARRAY_ELEMENT then ObjectReferenceDescription(kind)
    else if CLASS_LOADER <= kind <= SUPERCLASS then ClassReferenceDescription(kind)
    else if JNI_GLOBAL <= kind <= OTHER then RootReferenceDescription(kind)
    else UNKNOWN_KIND
  }

  /** The descriptions of the references that leave an object. */
  function ObjectReferenceDescription(kind: int): (s: string)
    requires CLASS <= kind <= ARRAY_ELEMENT
    ensures |s| == DescriptionLength(kind)
  {
    if kind == CLASS then ClassDescription()
    else if kind == FIELD then FieldDescription()
    else ArrayElementDescription()
  }

  /** The descriptions of the references that leave a class. */
  function ClassReferenceDescription(kind: int): (s: string)
    requires CLASS_LOADER <= kind <= SUPERCLASS
    ensures |s| == DescriptionLength(kind)
  {
    if kind == CLASS_LOADER then ClassLoaderDescription()
    else if kind == SIGNERS then SignersDescription()
    else if kind == PROTECTION_DOMAIN then ProtectionDomainDescription()
    else if kind == INTERFACE then InterfaceDescription()
    else if kind == STATIC_FIELD then StaticFieldDescription()
    else if kind == CONSTANT_POOL then ConstantPoolDescription()
    else SuperclassDescription()
  }

  /** The descriptions of the heap roots. */
  function RootReferenceDescription(kind: int): (s: string)
    requires JNI_GLOBAL <= kind <= OTHER
    ensures |s| == DescriptionLength(kind)
  {
    if kind == JNI_GLOBAL then JniGlobalDescription()
    else if kind == SYSTEM_CLASS then SystemClassDescription()
    else if kind == MONITOR then MonitorDescription()
    else if kind == STACK_LOCAL then StackLocalDescription()
    else if kind == JNI_LOCAL then JniLocalDescription()
    else if kind == THREAD then ThreadDescription()
    else OtherDescription()
  }

  function ClassDescription(): (s: string)
    ensures |s| == 38
  {
    "Reference from an object to its class."
  }

  function FieldDescription(): (s: string)
    ensures |s| == 68
  {
    "Reference from an object to the value of"
    + " one of its instance fields."
  }

  function ArrayElementDescription(): (s: string)
    ensures |s| == 47
  {
    "Reference from an array to one of its"
    + " elements."
  }

  function ClassLoaderDescription(): (s: string)
    ensures |s| == 43
  {
    "Reference from a class to its class"
    + " loader."
  }

  function SignersDescription(): (s: string)
    ensures |s| == 44
  {
    "Reference from a class to its signers"
    + " array."
  }

  function ProtectionDomainDescription(): (s: string)
    ensures |s| == 48
  {
    "Reference from a class to its protection"
    + " domain."
  }

  function InterfaceDescription(): (s: string)
    ensures |s| == 216
  {
    "Reference from a class to one of its"
    + " interfaces. Note: interfaces are"
    + " defined via a constant pool reference,"
    + " so the referenced interfaces may also"
    + " be reported with a"
    + " JVMTI_HEAP_REFERENCE_CONSTANT_POOL"
    + " reference kind."
  }

  function StaticFieldDescription(): (s: string)
    ensures |s| == 64
  {
    "Reference from a class to the value of"
    + " one of its static fields."
  }

  function ConstantPoolDescription(): (s: string)
    ensures |s| == 64
  {
    "Reference from a class to a resolved"
    + " entry in the constant pool."
  }

  function SuperclassDescription(): (s: string)
    ensures |s| == 283
  {
    "Reference from a class to its"
    + " superclass. A callback is bot sent if"
    + " the superclass is java.lang.Object."
    + " Note: loaded classes define"
    + " superclasses via a constant pool"
    + " reference, so the referenced superclass"
    + " may also be reported with a"
    + " JVMTI_HEAP_REFERENCE_CONSTANT_POOL"
    + " reference kind."
  }

  function JniGlobalDescription(): (s: string)
    ensures |s| == 42
  {
    "Heap root reference: JNI global"
    + " reference."
  }

  function SystemClassDescription(): (s: string)
    ensures |s| == 34
  {
    "Heap root reference: System class."
  }

  function MonitorDescription(): (s: string)
    ensures |s| == 29
  {
    "Heap root reference: monitor."
  }

  function StackLocalDescription(): (s: string)
    ensures |s| == 49
  {
    "Heap root reference: local variable on"
    + " the stack."
  }

  function JniLocalDescription(): (s: string)
    ensures |s| == 41
  {
    "Heap root reference: JNI local"
    + " reference."
  }

  function ThreadDescription(): (s: string)
    ensures |s| == 28
  {
    "Heap root reference: Thread."
  }

  function OtherDescription(): (s: string)
    ensures |s| == 47
  {
    "Heap root reference: other heap root"
    + " reference."
  }

  const UNKNOWN_KIND: string := "Unknown reference kind"

  /** The length of each description. */
  function DescriptionLength(kind: int): nat {
    if kind == CLASS then 38
    else if kind == FIELD then 68
    else if kind == ARRAY_ELEMENT then 47
    else if kind == CLASS_LOADER then 43
    else if kind == SIGNERS then 44
    else if kind == PROTECTION_DOMAIN then 48
    else if kind == INTERFACE then 216
    else if kind == STATIC_FIELD then 64
    else if kind == CONSTANT_POOL then 64
    else if kind == SUPERCLASS then 283
    else if kind == JNI_GLOBAL then 42
    else if kind == SYSTEM_CLASS then 34
    else if kind == MONITOR then 29
    else if kind == STACK_LOCAL then 49
    else if kind == JNI_LOCAL then 41
    else if kind == THREAD then 28
    else if kind == OTHER then 47
    else 22
  }

  /**
   * The kind a description names, read off its length and, for the two
   * pairs of descriptions of equal length, one character.
   */
  function KindOfDescription(s: string): int {
    if |s| == 64 then (if s[26] == 't' then STATIC_FIELD else CONSTANT_POOL)
    else if |s| == 47 then (if s[0] == 'R' then ARRAY_ELEMENT else OTHER)
    else if |s| == 38 then CLASS
    else if |s| == 68 then FIELD
    else if |s| == 43 then CLASS_LOADER
    else if |s| == 44 then SIGNERS
    else if |s| == 48 then PROTECTION_DOMAIN
    else if |s| == 216 then INTERFACE
    else if |s| == 283 then SUPERCLASS
    else if |s| == 42 then JNI_GLOBAL
    else if |s| == 34 then SYSTEM_CLASS
    else if |s| == 29 then MONITOR
    else if |s| == 49 then STACK_LOCAL
    else if |s| == 41 then JNI_LOCAL
    else if |s| == 28 then THREAD
    else 0
  }

  /** The characters that tell the two pairs of equal-length descriptions apart. */
  lemma DistinguishingCharacters()
    ensures StaticFieldDescription()[26] == 't' && ConstantPoolDescription()[26] == 'a'
    ensures ArrayElementDescription()[0] == 'R' && OtherDescription()[0] == 'H'
  {
  }

  lemma ObjectDescriptionsNameKind(kind: int)
    requires CLASS <= kind <= ARRAY_ELEMENT
    ensures KindOfDescription(ObjectReferenceDescription(kind)) == kind
  {
    DistinguishingCharacters();
  }

  lemma ClassDescriptionsNameKind(kind: int)
    requires CLASS_LOADER <= kind <= SUPERCLASS
    ensures KindOfDescription(ClassReferenceDescription(kind)) == kind
  {
    DistinguishingCharacters();
  }

  lemma RootDescriptionsNameKind(kind: int)
    requires JNI_GLOBAL <= kind <= OTHER
    ensures KindOfDescription(RootReferenceDescription(kind)) == kind
  {
    DistinguishingCharacters();
  }

  /** Each description names its kind, and the unknown text names none. */
  lemma DescriptionNamesKind(kind: int)
    ensures KindOfDescription(ReferenceTypeDescription(kind)) == if IsReferenceKind(kind) then kind else 0
  {
    if CLASS <= kind <= ARRAY_ELEMENT {
      ObjectDescriptionsNameKind(kind);
    } else if CLASS_LOADER <= kind <= SUPERCLASS {
      ClassDescriptionsNameKind(kind);
    } else if JNI_GLOBAL <= kind <= OTHER {
      RootDescriptionsNameKind(kind);
    }
  }

  /** Different kinds have different descriptions. */
  lemma DescriptionsDistinct(a: int, b: int)
    requires IsReferenceKind(a) && IsReferenceKind(b) && a != b
    ensures ReferenceTypeDescription(a) != ReferenceTypeDescription(b)
  {
    DescriptionNamesKind(a);
    DescriptionNamesKind(b);
  }

  /** Every value outside the seventeen kinds, and only those, is described as unknown. */
  lemma UnknownKinds(kind: int)
    ensures ReferenceTypeDescription(kind) == UNKNOWN_KIND <==> !IsReferenceKind(kind)
  {
    DescriptionNamesKind(kind);
    assert KindOfDescription(UNKNOWN_KIND) == 0;
  }

  /** `is_ignored_reference`: the kinds that lead from an object to class metadata. */
  predicate IsIgnoredReference(kind: int) {
    kind == CLASS || kind == CLASS_LOADER || kind == SIGNERS || kind == PROTECTION_DOMAIN
    || kind == INTERFACE || kind == SUPERCLASS || kind == CONSTANT_POOL
  }

  /**
   * The ignored kinds are exactly the seven class-metadata kinds; fields,
   * array elements, static fields and every heap root are followed.
   */
  lemma IgnoredKinds(kind: int)
    ensures IsIgnoredReference(kind) <==> kind in {1, 4, 5, 6, 7, 9, 10}
    ensures kind in {FIELD, ARRAY_ELEMENT, STATIC_FIELD} || 21 <= kind <= 27 ==> !IsIgnoredReference(kind)
  {
  }

  /** The flag tag of `obect_size`. */
  datatype Tag = Tag(inSubtree: bool, reachableOutside: bool, startObject: bool)

  function FromBool(value: bool): string {
    if value then "true" else "false"
  }

  const START_KEY: string := "tag[start = "
  const SUBTREE_KEY: string := ", in_subtree = "
  const OUTSIDE_KEY: string := ", reachable outside = "
  const TAG_CLOSING: string := "]"

  /** `get_tag_description`. */
  function TagDescription(tag: Tag): string {
    START_KEY + FromBool(tag.startObject) + SUBTREE_KEY + FromBool(tag.inSubtree)
    + OUTSIDE_KEY + FromBool(tag.reachableOutside) + TAG_CLOSING
  }

  /** Reads `true` or `false` off the front of `s`. */
  function ReadBool(s: string): Option<(bool, string)> {
    if "true" <= s then Some((true, s[4..]))
    else if "false" <= s then Some((false, s[5..]))
    else None
  }

  lemma ReadBoolOf(b: bool, rest: string)
    ensures ReadBool(FromBool(b) + rest) == Some((b, rest))
  {
    var s := FromBool(b) + rest;
    assert s[0] == FromBool(b)[0];
    assert s[..|FromBool(b)|] == FromBool(b);
    assert s[|FromBool(b)|..] == rest;
  }

  /** Reads `key` and a boolean. */
  function BoolField(key: string, s: string): Option<(bool, string)> {
    match Expect(key, s)
    case None => None
    case Some(t) => ReadBool(t)
  }

  lemma BoolFieldOf(key: string, b: bool, rest: string)
    ensures BoolField(key, key + FromBool(b) + rest) == Some((b, rest))
  {
    assert key + FromBool(b) + rest == key + (FromBool(b) + rest);
    ExpectOf(key, FromBool(b) + rest);
    ReadBoolOf(b, rest);
  }

  /** Reads a tag description back. */
  function ParseTagDescription(s: string): Option<Tag> {
    match BoolField(START_KEY, s)
    case None => None
    case Some((start, s1)) =>
      match BoolField(SUBTREE_KEY, s1)
      case None => None
      case Some((inSubtree, s2)) =>
        match BoolField(OUTSIDE_KEY, s2)
        case None => None
        case Some((outside, s3)) =>
          if s3 == TAG_CLOSING then Some(Tag(inSubtree, outside, start)) else None
  }

  /** Seven pieces joined left to right, regrouped from the back. */
  lemma Regroup(k1: string, v1: string, k2: string, v2: string, k3: string, v3: string, e: string)
    ensures k1 + v1 + k2 + v2 + k3 + v3 + e == k1 + v1 + (k2 + v2 + (k3 + v3 + e))
  {
    var t := k3 + v3 + e;
    assert k1 + v1 + k2 + v2 + k3 + v3 + e == k1 + v1 + k2 + v2 + t;
    assert k1 + v1 + k2 + v2 + t == k1 + v1 + (k2 + v2 + t);
  }

  /** The description names the three flags in a form that reads back to the same tag. */
  lemma TagDescriptionRoundTrip(tag: Tag)
    ensures ParseTagDescription(TagDescription(tag)) == Some(tag)
  {
    var s3 := OUTSIDE_KEY + FromBool(tag.reachableOutside) + TAG_CLOSING;
    var s2 := SUBTREE_KEY + FromBool(tag.inSubtree) + s3;
    Regroup(START_KEY, FromBool(tag.startObject), SUBTREE_KEY, FromBool(tag.inSubtree),
            OUTSIDE_KEY, FromBool(tag.reachableOutside), TAG_CLOSING);
    BoolFieldOf(START_KEY, tag.startObject, s2);
    BoolFieldOf(SUBTREE_KEY, tag.inSubtree, s3);
    BoolFieldOf(OUTSIDE_KEY, tag.reachableOutside, TAG_CLOSING);
  }
}
