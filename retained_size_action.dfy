/**
 * The older copy of the retained-size callbacks. It differs from the
 * newer one in three ways: no reference callback checks for a stop
 * request, a class tag is recognised by its dynamic type
 * (`tagToClassTagPointer`, the `classTag` flag of a record) rather than
 * by a positive id, and a listed class makes the start tag of its
 * instances with `ClassTag::createStartTag`. The body of that method is
 * not part of this model, so the entries of the start tag it makes are
 * an input of the callbacks that use it.
 */
module RetainedSizeAction {
  import opened Jvmti
  import opened TagInfoArrays
  import opened SizesTags
  import C = SizesCallbacks

  /** `tagToClassTagPointer(t) != nullptr`: a live tag made by `ClassTag::create`. */
  predicate IsClassTag(s: Store, t: int) {
    t != NO_TAG && t in s.tags && s.tags[t].classTag
  }

  /** `handleReferrersWithNoInfo` of the older copy; `None` when the referrer has information to pass on. */
  function HandleNoInfo(s: Store, rer: Option<int>, tag: int, setNewInfo: bool): (r: Option<Made>)
    requires Live(s, tag) && (rer.Some? ==> Live(s, rer.value))
    ensures r.None? <==>
              rer.Some? && rer.value != NO_TAG && rer.value != EMPTY_TAG && rer.value != TAG_WITH_NEW_INFO
              && !s.tags[rer.value].classTag
  {
    if C.FromUntagged(rer) then
      if tag == NO_TAG then Some(Made(s, EMPTY_TAG))
      else if tag == EMPTY_TAG then Some(Made(s, tag))
      else if setNewInfo && s.tags[tag].alreadyReferred then Some(Made(AfterUnref(s, tag), TAG_WITH_NEW_INFO))
      else Some(Made(AfterVisitFromUntaggedReferrer(s, tag), tag))
    else if rer.value == TAG_WITH_NEW_INFO || rer.value == NO_TAG || IsClassTag(s, rer.value) then
      Some(Made(s, tag))
    else
      None
  }

  /** `tagsAreValidForMerge` of the older copy: the referee is no class tag, the tags differ, the referrer brings new entries. */
  predicate ValidForMerge(s: Store, ree: int, rer: int)
    requires ree in s.tags && rer in s.tags
  {
    !IsClassTag(s, ree) && ree != rer && !Covered(s.tags[rer].entries, s.tags[ree].entries)
  }

  /** The middle of the older `getTagsWithNewInfo`. */
  function ReceiveNewInfo(s: Store, tag: int, r: int): (m: Made)
    requires Live(s, tag) && r in s.tags && r != NO_TAG
    ensures r in m.store.tags
  {
    if tag == NO_TAG then AfterShare(s, r)
    else if ValidForMerge(s, tag, r) then
      if s.tags[tag].alreadyReferred then Made(AfterUnref(s, tag), TAG_WITH_NEW_INFO)
      else AfterMerge(s, tag, r)
    else Made(s, tag)
  }

  /** The older `getTagsWithNewInfo`. */
  function GetTagsWithNewInfoStep(e: C.Engine, kind: int, rer: Option<int>, tag: int): C.Step
    requires Live(e.store, tag) && (rer.Some? ==> Live(e.store, rer.value))
  {
    if IsJniReference(kind) || tag == TAG_WITH_NEW_INFO then C.Step(e, VisitObjects, tag)
    else match HandleNoInfo(e.store, rer, tag, true)
      case Some(m) => C.Step(e.(store := m.store), VisitObjects, m.tag)
      case None =>
        var m := ReceiveNewInfo(e.store, tag, rer.value);
        C.Step(e.(store := AfterMarkReferred(m.store, rer.value)), VisitObjects, m.tag)
  }

  /** The older `visitReference`. */
  function VisitReferenceStep(e: C.Engine, kind: int, rer: Option<int>, tag: int): C.Step
    requires Live(e.store, tag) && (rer.Some? ==> Live(e.store, rer.value))
  {
    if IsJniReference(kind) then C.Step(e, VisitObjects, tag)
    else match HandleNoInfo(e.store, rer, tag, false)
      case Some(m) => C.Step(e.(store := m.store), VisitObjects, m.tag)
      case None =>
        var r := rer.value;
        if tag == NO_TAG then
          var m := AfterShare(e.store, r);
          C.Step(e.(store := m.store), VisitObjects, m.tag)
        else if tag == TAG_WITH_NEW_INFO then
          var m := AfterShare(e.store, r);
          C.Step(C.Engine(m.store, e.newInfo + {m.tag}), VisitObjects, m.tag)
        else if ValidForMerge(e.store, tag, r) then
          var m := AfterMerge(e.store, tag, r);
          C.Step(C.Engine(m.store, e.newInfo - {tag} + {m.tag}), VisitObjects, m.tag)
        else
          C.Step(e, VisitObjects, tag)
  }

  /** The record `createStartTag` makes from the start entries `es` of a class. */
  function StartTagRec(es: seq<TagInfo>): TagRec {
    TagRec(es, true, false, 1, 0, false)
  }

  /** Start entries a class tag may hand out: sorted, naming queries of this operation. */
  predicate StartEntries(s: Store, es: seq<TagInfo>) {
    Sorted(es) && forall e :: e in es ==> e.index < s.queries
  }

  /** The older `retagStartObjects`: `createStartTag` replaces `TagWithNewInfo` and is recorded. */
  function RetagStartObjectsStep(e: C.Engine, classTag: int, tag: int, start: seq<TagInfo>): C.Step {
    if IsClassTag(e.store, classTag) && tag == TAG_WITH_NEW_INFO then
      var m := AfterAdd(e.store, StartTagRec(start));
      C.Step(C.Engine(m.store, e.newInfo + {m.tag}), IterationContinue, m.tag)
    else
      C.Step(e, IterationContinue, tag)
  }

  /** The older `tagObjectOfTaggedClass`: only still-untagged instances of a listed class get a start tag. */
  function TagObjectOfTaggedClassStep(e: C.Engine, classTag: int, tag: int, start: seq<TagInfo>): C.Step {
    if IsClassTag(e.store, classTag) && tag == NO_TAG then
      var m := AfterAdd(e.store, StartTagRec(start));
      C.Step(e.(store := m.store), IterationContinue, m.tag)
    else
      C.Step(e, IterationContinue, tag)
  }

  /** The older `spreadInfo` is the newer one without its stop check. */
  function SpreadInfoStep(e: C.Engine, kind: int, rer: int, tag: int): (st: C.Step)
    requires Live(e.store, tag) && Live(e.store, rer)
    ensures st.visit == VisitObjects
  {
    C.SpreadInfoStep(e, kind, rer, tag, false)
  }

  /** No stop answers for the walks: the older `spreadInfo` never asks. */
  function NoStops(walks: seq<seq<Edge>>): (r: seq<seq<bool>>)
    ensures |r| == |walks| && forall i :: 0 <= i < |r| ==> |r[i]| == |walks[i]|
    ensures forall i :: 0 <= i < |r| ==> true !in r[i]
  {
    seq(|walks|, i requires 0 <= i < |walks| => seq(|walks[i]|, _ => false))
  }

  /**
   * The older `walkHeapFromObjects`: the same loop as the newer one over
   * the objects alone, its walks running the older `spreadInfo`.
   */
  function WalkAll(h: C.Heap, objects: seq<ObjId>, late: seq<bool>, walks: seq<seq<Edge>>): (r: (C.Heap, AgentError))
    requires C.HeapValid(h) && C.WalksIn(h, objects, late, walks, NoStops(walks))
  {
    C.WalkAll(h, objects, late, walks, NoStops(walks))
  }

  /** The older walk times out exactly when the deadline has passed before some object, and no walk from an object is cut short. */
  lemma WalkAllTimesOut(h: C.Heap, objects: seq<ObjId>, late: seq<bool>, walks: seq<seq<Edge>>)
    requires C.HeapValid(h) && C.WalksIn(h, objects, late, walks, NoStops(walks))
    ensures WalkAll(h, objects, late, walks).1 == Timeout <==> true in late
    ensures WalkAll(h, objects, late, walks).1 == NoError <==> true !in late
    ensures forall i :: 0 <= i < |walks| && C.EdgesIn(C.SpreadInfoPass, walks[i], h.slots) ==>
              !C.FollowAll(h, C.SpreadInfoPass, walks[i], NoStops(walks)[i]).aborted
  {
    C.WalkAllTimesOut(h, objects, late, walks, NoStops(walks));
    forall i | 0 <= i < |walks| && C.EdgesIn(C.SpreadInfoPass, walks[i], h.slots)
      ensures !C.FollowAll(h, C.SpreadInfoPass, walks[i], NoStops(walks)[i]).aborted
    {
      C.FollowAllAborts(h, C.SpreadInfoPass, walks[i], NoStops(walks)[i]);
    }
  }

  /** The older reference callbacks never abort a heap walk. */
  lemma NeverAborts(e: C.Engine, kind: int, rer: Option<int>, tag: int)
    requires Live(e.store, tag) && (rer.Some? ==> Live(e.store, rer.value))
    ensures GetTagsWithNewInfoStep(e, kind, rer, tag).visit == VisitObjects
    ensures VisitReferenceStep(e, kind, rer, tag).visit == VisitObjects
  {
  }

  /** Every live tag is a class tag by type exactly when it has a positive id. */
  ghost predicate ClassTagsAgree(s: Store) {
    forall t :: t in s.tags ==> (s.tags[t].classTag <==> s.tags[t].id > 0)
  }

  /**
   * Where the two ways of recognising a class tag agree, the older
   * reference callbacks do what the newer ones do when no stop is
   * requested.
   */
  lemma AgreesWithNewer(e: C.Engine, kind: int, rer: Option<int>, tag: int)
    requires Live(e.store, tag) && (rer.Some? ==> Live(e.store, rer.value)) && ClassTagsAgree(e.store)
    ensures GetTagsWithNewInfoStep(e, kind, rer, tag) == C.GetTagsWithNewInfoStep(e, kind, rer, tag, false)
    ensures VisitReferenceStep(e, kind, rer, tag) == C.VisitReferenceStep(e, kind, rer, tag, false)
  {
    assert HandleNoInfo(e.store, rer, tag, true) == C.HandleNoInfo(e.store, rer, tag, true);
    assert HandleNoInfo(e.store, rer, tag, false) == C.HandleNoInfo(e.store, rer, tag, false);
    if rer.Some? && Live(e.store, rer.value) && rer.value != NO_TAG && tag != NO_TAG {
      assert ValidForMerge(e.store, tag, rer.value) == C.ValidForMerge(e.store, tag, rer.value);
    }
  }

  /** The older `getTagsWithNewInfo` keeps the store valid and accounts for the referee's slot. */
  lemma GetTagsWithNewInfoSound(e: C.Engine, kind: int, rer: Option<int>, tag: int)
    requires StoreValid(e.store) && Live(e.store, tag) && (rer.Some? ==> Live(e.store, rer.value))
    ensures C.SoundStep(e.store, GetTagsWithNewInfoStep(e, kind, rer, tag), tag)
  {
    var st := GetTagsWithNewInfoStep(e, kind, rer, tag);
    NoCountChange(e.store, EMPTY_TAG, tag);
    if !IsJniReference(kind) && tag != TAG_WITH_NEW_INFO {
      var h := HandleNoInfo(e.store, rer, tag, true);
      if h.Some? {
        HandleNoInfoSound(e.store, rer, tag, true);
      } else {
        var r := rer.value;
        var s := e.store;
        var m := ReceiveNewInfo(s, tag, r);
        if tag == NO_TAG {
          ShareValid(s, r);
          ShareAccounted(s, r, tag);
        } else if ValidForMerge(s, tag, r) {
          if s.tags[tag].alreadyReferred {
            UnrefValid(s, tag);
            UnrefAccounted(s, tag, TAG_WITH_NEW_INFO);
          } else {
            MergeValid(s, tag, r);
            MergeAccounted(s, tag, r);
          }
        }
        VisitValid(m.store, r);
        NoCountChange(m.store, r, tag);
        AccountedThen(s, m.store, st.engine.store, tag, m.tag);
      }
    }
  }

  /** The older `handleReferrersWithNoInfo` keeps the store valid and accounts for the referee's slot. */
  lemma HandleNoInfoSound(s: Store, rer: Option<int>, tag: int, setNewInfo: bool)
    requires StoreValid(s) && Live(s, tag) && (rer.Some? ==> Live(s, rer.value))
    requires HandleNoInfo(s, rer, tag, setNewInfo).Some?
    ensures var m := HandleNoInfo(s, rer, tag, setNewInfo).value;
            StoreValid(m.store) && Live(m.store, m.tag) && Accounted(s, m.store, tag, m.tag)
  {
    var m := HandleNoInfo(s, rer, tag, setNewInfo).value;
    NoCountChange(s, EMPTY_TAG, tag);
    if C.FromUntagged(rer) && tag != NO_TAG && tag != EMPTY_TAG {
      if setNewInfo && s.tags[tag].alreadyReferred {
        UnrefValid(s, tag);
        UnrefAccounted(s, tag, TAG_WITH_NEW_INFO);
      } else {
        VisitValid(s, tag);
        NoCountChange(s, tag, tag);
        AccountedThen(s, s, m.store, tag, tag);
      }
    }
  }

  /** The older `visitReference` keeps the store valid and accounts for the referee's slot. */
  lemma VisitReferenceSound(e: C.Engine, kind: int, rer: Option<int>, tag: int)
    requires StoreValid(e.store) && Live(e.store, tag) && (rer.Some? ==> Live(e.store, rer.value))
    ensures C.SoundStep(e.store, VisitReferenceStep(e, kind, rer, tag), tag)
  {
    NoCountChange(e.store, EMPTY_TAG, tag);
    if !IsJniReference(kind) {
      var h := HandleNoInfo(e.store, rer, tag, false);
      if h.Some? {
        HandleNoInfoSound(e.store, rer, tag, false);
      } else {
        var r := rer.value;
        if tag == NO_TAG || tag == TAG_WITH_NEW_INFO {
          ShareValid(e.store, r);
          ShareAccounted(e.store, r, tag);
        } else if ValidForMerge(e.store, tag, r) {
          MergeValid(e.store, tag, r);
          MergeAccounted(e.store, tag, r);
        }
      }
    }
  }

  /**
   * The older iteration callbacks keep the store valid and account for the
   * object's slot: they only ever put a fresh start tag where no heap tag was.
   */
  lemma StartTagSound(e: C.Engine, classTag: int, tag: int, start: seq<TagInfo>)
    requires StoreValid(e.store) && Live(e.store, tag) && StartEntries(e.store, start)
    ensures C.SoundStep(e.store, RetagStartObjectsStep(e, classTag, tag, start), tag)
    ensures C.SoundStep(e.store, TagObjectOfTaggedClassStep(e, classTag, tag, start), tag)
  {
    NoCountChange(e.store, EMPTY_TAG, tag);
    if IsClassTag(e.store, classTag) && (tag == TAG_WITH_NEW_INFO || tag == NO_TAG) {
      AddValid(e.store, StartTagRec(start));
      C.AddAccounted(e.store, StartTagRec(start), tag);
    }
  }

  /** `tagObjectOfTaggedClass` leaves every already tagged object alone. */
  lemma TagObjectOnlyUntagged(e: C.Engine, classTag: int, tag: int, start: seq<TagInfo>)
    requires tag != NO_TAG
    ensures TagObjectOfTaggedClassStep(e, classTag, tag, start) == C.Step(e, IterationContinue, tag)
  {
  }

  /** The older callbacks' state, updated in place: the live tags and the `tagsWithNewInfo` set. */
  class Callbacks {
    const tags: TagStore
    var tagsWithNewInfo: set<int>

    ghost function State(): C.Engine
      reads this, tags
    {
      C.Engine(tags.State(), tagsWithNewInfo)
    }

    constructor(tags: TagStore)
      ensures this.tags == tags && tagsWithNewInfo == {}
    {
      this.tags := tags;
      tagsWithNewInfo := {};
    }

    method TagsAreValidForMerge(ree: int, rer: int) returns (b: bool)
      requires tags.Valid() && ree in tags.tags && rer in tags.tags
      ensures b == ValidForMerge(tags.State(), ree, rer)
    {
      if (ree != NO_TAG && tags.tags[ree].classTag) || ree == rer {
        return false;
      }
      b := ShouldMerge(tags.tags[ree].entries, tags.tags[rer].entries);
    }

    method HandleReferrersWithNoInfo(rer: Option<int>, tag: int, setNewInfo: bool) returns (handled: bool, newTag: int)
      requires tags.Valid() && Live(tags.State(), tag) && (rer.Some? ==> Live(tags.State(), rer.value))
      modifies tags
      ensures tags.Valid()
      ensures var h := HandleNoInfo(old(tags.State()), rer, tag, setNewInfo);
              handled == h.Some?
              && (h.Some? ==> tags.State() == h.value.store && newTag == h.value.tag)
              && (h.None? ==> tags.State() == old(tags.State()))
    {
      if rer.None? || rer.value == EMPTY_TAG {
        newTag := tag;
        if tag == NO_TAG {
          newTag := EMPTY_TAG;
        } else if tag != EMPTY_TAG {
          if setNewInfo && tags.tags[tag].alreadyReferred {
            tags.Unref(tag);
            newTag := TAG_WITH_NEW_INFO;
          } else {
            tags.VisitFromUntaggedReferrer(tag);
          }
        }
        return true, newTag;
      } else if rer.value == TAG_WITH_NEW_INFO || rer.value == NO_TAG || tags.tags[rer.value].classTag {
        return true, tag;
      }
      return false, tag;
    }

    method GetTagsWithNewInfo(kind: int, rer: Option<int>, tag: int) returns (v: Visit, newTag: int)
      requires tags.Valid() && Live(tags.State(), tag) && (rer.Some? ==> Live(tags.State(), rer.value))
      modifies tags
      ensures tags.Valid()
      ensures var st := GetTagsWithNewInfoStep(old(State()), kind, rer, tag);
              State() == st.engine && v == st.visit && newTag == st.tag
    {
      v := VisitObjects;
      if IsJniReference(kind) || tag == TAG_WITH_NEW_INFO {
        return VisitObjects, tag;
      }
      var handled, t := HandleReferrersWithNoInfo(rer, tag, true);
      if handled {
        return VisitObjects, t;
      }
      var r := rer.value;
      ghost var s := tags.State();
      newTag := tag;
      if tag == NO_TAG {
        newTag := tags.Share(r);
      } else {
        var valid := TagsAreValidForMerge(tag, r);
        if valid {
          if tags.tags[tag].alreadyReferred {
            tags.Unref(tag);
            newTag := TAG_WITH_NEW_INFO;
          } else {
            newTag := tags.Merge(tag, r);
          }
        }
      }
      assert tags.State() == ReceiveNewInfo(s, tag, r).store;
      tags.MarkReferred(r);
    }

    method VisitReference(kind: int, rer: Option<int>, tag: int) returns (v: Visit, newTag: int)
      requires tags.Valid() && Live(tags.State(), tag) && (rer.Some? ==> Live(tags.State(), rer.value))
      modifies this, tags
      ensures tags.Valid()
      ensures var st := VisitReferenceStep(old(State()), kind, rer, tag);
              State() == st.engine && v == st.visit && newTag == st.tag
    {
      v := VisitObjects;
      if IsJniReference(kind) {
        return VisitObjects, tag;
      }
      var handled, t := HandleReferrersWithNoInfo(rer, tag, false);
      if handled {
        return VisitObjects, t;
      }
      var r := rer.value;
      newTag := tag;
      if tag == NO_TAG {
        newTag := tags.Share(r);
      } else if tag == TAG_WITH_NEW_INFO {
        newTag := tags.Share(r);
        tagsWithNewInfo := tagsWithNewInfo + {newTag};
      } else {
        var valid := TagsAreValidForMerge(tag, r);
        if valid {
          tagsWithNewInfo := tagsWithNewInfo - {tag};
          newTag := tags.Merge(tag, r);
          tagsWithNewInfo := tagsWithNewInfo + {newTag};
        }
      }
    }

    method SpreadInfo(kind: int, rer: int, tag: int) returns (v: Visit, newTag: int)
      requires tags.Valid() && Live(tags.State(), tag) && Live(tags.State(), rer)
      modifies this, tags
      ensures tags.Valid()
      ensures var st := SpreadInfoStep(old(State()), kind, rer, tag);
              State() == st.engine && v == st.visit && newTag == st.tag
    {
      newTag := tag;
      v := VisitObjects;
      if !IsJniReference(kind) && tag != NO_TAG && rer != NO_TAG {
        if tag in tagsWithNewInfo {
          tagsWithNewInfo := tagsWithNewInfo - {tag};
        }
        if rer != tag {
          var merge := ShouldMerge(tags.tags[tag].entries, tags.tags[rer].entries);
          if merge {
            newTag := tags.Merge(tag, rer);
          }
        }
      }
    }

    /** `retagStartObjects`; `start` stands for the entries `createStartTag` gives. */
    method RetagStartObjects(classTag: int, tag: int, start: seq<TagInfo>) returns (newTag: int)
      requires tags.Valid() && StartEntries(tags.State(), start)
      modifies this, tags
      ensures tags.Valid()
      ensures var st := RetagStartObjectsStep(old(State()), classTag, tag, start);
              State() == st.engine && newTag == st.tag
    {
      newTag := tag;
      if classTag != NO_TAG && classTag in tags.tags && tags.tags[classTag].classTag && tag == TAG_WITH_NEW_INFO {
        newTag := tags.Add(StartTagRec(start));
        tagsWithNewInfo := tagsWithNewInfo + {newTag};
      }
    }

    /** `tagObjectOfTaggedClass`; `start` stands for the entries `createStartTag` gives. */
    method TagObjectOfTaggedClass(classTag: int, tag: int, start: seq<TagInfo>) returns (newTag: int)
      requires tags.Valid() && StartEntries(tags.State(), start)
      modifies tags
      ensures tags.Valid()
      ensures var st := TagObjectOfTaggedClassStep(old(State()), classTag, tag, start);
              State() == st.engine && newTag == st.tag
    {
      newTag := tag;
      if classTag != NO_TAG && classTag in tags.tags && tags.tags[classTag].classTag && tag == NO_TAG {
        newTag := tags.Add(StartTagRec(start));
      }
    }
  }
}
