/** The upload form: its tag list, the tag being typed, the schedule switch,
  * and the highlight of the drop zone while a file is dragged over it.
  */
module Upload {
  import opened Seqs
  import opened Text

  /** A tag as the list keeps it: non-empty and already trimmed. */
  predicate CleanTag(t: string)
  {
    t != "" && Trim(t) == t
  }

  /** `addTag`'s guard: the trimmed input is non-empty and not yet a tag. */
  predicate TagAccepted(tags: seq<string>, input: string)
  {
    Trim(input) != "" && Trim(input) !in tags
  }

  /** The tags after `addTag` with `input` in the box. */
  function AddTagTo(tags: seq<string>, input: string): seq<string>
  {
    if TagAccepted(tags, input) then tags + [Trim(input)] else tags
  }

  /** The tags after `removeTag(tag)`. */
  function RemoveTagFrom(tags: seq<string>, tag: string): seq<string>
  {
    RemoveAll(tags, tag)
  }

  /** The drop zone's highlight after a drag event of the given type: on for
    * "dragenter" and "dragover", off for "dragleave", unchanged otherwise. */
  function DragActiveAfter(active: bool, eventType: string): bool
  {
    if eventType == "dragenter" || eventType == "dragover" then true
    else if eventType == "dragleave" then false
    else active
  }

  // ---------------------------------------------------------------- lemmas

  /** `addTag` appends the trimmed input exactly when it is non-empty and new,
    * and the tag list keeps its distinct, trimmed, non-empty entries. */
  lemma AddTagSpec(tags: seq<string>, input: string)
    requires NoDup(tags) && forall t :: t in tags ==> CleanTag(t)
    ensures TagAccepted(tags, input) ==> AddTagTo(tags, input) == tags + [Trim(input)]
    ensures !TagAccepted(tags, input) ==> AddTagTo(tags, input) == tags
    ensures NoDup(AddTagTo(tags, input))
    ensures forall t :: t in AddTagTo(tags, input) ==> CleanTag(t)
    ensures forall t :: t in AddTagTo(tags, input) <==> t in tags || (t == Trim(input) && t != "")
  {
    if TagAccepted(tags, input) {
      AppendNoDup(tags, Trim(input));
      TrimIdempotent(input);
    }
  }

  /** Pressing Add twice on the same input adds the tag once. */
  lemma AddTagTwice(tags: seq<string>, input: string)
    ensures AddTagTo(AddTagTo(tags, input), input) == AddTagTo(tags, input)
  {
  }

  /** Surrounding white space does not make a different tag. */
  lemma AddTagIgnoresPadding(tags: seq<string>, input: string)
    ensures AddTagTo(tags, Trim(input)) == AddTagTo(tags, input)
  {
    TrimIdempotent(input);
  }

  /** An input of white space alone adds nothing. */
  lemma BlankTagRejected(tags: seq<string>, input: string)
    requires AllSpace(input)
    ensures AddTagTo(tags, input) == tags
  {
    TrimEmpty(input);
  }

  /** Removing a tag that was just added restores the list. */
  lemma AddThenRemoveTag(tags: seq<string>, input: string)
    requires TagAccepted(tags, input)
    ensures RemoveTagFrom(AddTagTo(tags, input), Trim(input)) == tags
  {
    AppendThenRemove(tags, Trim(input));
  }

  /** `removeTag` drops the tag, keeps every other one, and keeps the list's
    * invariant. */
  lemma RemoveTagSpec(tags: seq<string>, tag: string)
    requires NoDup(tags) && forall t :: t in tags ==> CleanTag(t)
    ensures tag !in RemoveTagFrom(tags, tag)
    ensures forall t :: t in RemoveTagFrom(tags, tag) <==> t in tags && t != tag
    ensures NoDup(RemoveTagFrom(tags, tag))
    ensures forall t :: t in RemoveTagFrom(tags, tag) ==> CleanTag(t)
  {
    RemoveAllSpec(tags, tag);
    SubsequenceNoDup(RemoveTagFrom(tags, tag), tags);
  }

  /** The event types `handleDrag` reacts to. */
  predicate MovesHighlight(eventType: string)
  {
    eventType == "dragenter" || eventType == "dragover" || eventType == "dragleave"
  }

  /** The highlight after the drag events `events`, handled in order. */
  function DragAfterAll(active: bool, events: seq<string>): bool
    decreases events
  {
    if events == [] then active else DragAfterAll(DragActiveAfter(active, events[0]), events[1..])
  }

  /** Handling one more event continues from the highlight reached so far. */
  lemma {:induction false} DragAfterAllAppend(active: bool, events: seq<string>, e: string)
    ensures DragAfterAll(active, events + [e]) == DragActiveAfter(DragAfterAll(active, events), e)
    decreases events
  {
    if events != [] {
      assert (events + [e])[1..] == events[1..] + [e];
      DragAfterAllAppend(DragActiveAfter(active, events[0]), events[1..], e);
    } else {
      assert ([] + [e])[1..] == [];
    }
  }

  /** Repeating an event changes nothing more: the highlight depends only on
    * the event's type. */
  lemma DragActiveIdempotent(active: bool, eventType: string)
    ensures DragActiveAfter(DragActiveAfter(active, eventType), eventType) == DragActiveAfter(active, eventType)
  {
  }

  /** Handling `pre` and then `post` is handling them one after the other. */
  lemma {:induction false} DragAfterAllSplit(active: bool, pre: seq<string>, post: seq<string>)
    ensures DragAfterAll(active, pre + post) == DragAfterAll(DragAfterAll(active, pre), post)
    decreases pre
  {
    if pre != [] {
      assert (pre + post)[1..] == pre[1..] + post;
      DragAfterAllSplit(DragActiveAfter(active, pre[0]), pre[1..], post);
    } else {
      assert [] + post == post;
    }
  }

  /** Events other than enter, over and leave leave the highlight as it was. */
  lemma {:induction false} DragIgnoresOthers(active: bool, events: seq<string>)
    requires forall i :: 0 <= i < |events| ==> !MovesHighlight(events[i])
    ensures DragAfterAll(active, events) == active
    decreases events
  {
    if events != [] {
      assert !MovesHighlight(events[0]);
      DragIgnoresOthers(active, events[1..]);
    }
  }

  /** After a run of drag events the zone is highlighted exactly when the
    * last enter, over or leave among them was an enter or an over. */
  lemma DragDecidedByLast(active: bool, events: seq<string>, k: nat)
    requires k < |events| && MovesHighlight(events[k])
    requires forall j :: k < j < |events| ==> !MovesHighlight(events[j])
    ensures DragAfterAll(active, events) == (events[k] == "dragenter" || events[k] == "dragover")
  {
    var pre, post := events[..k], events[k + 1..];
    assert events == (pre + [events[k]]) + post;
    DragAfterAllSplit(active, pre + [events[k]], post);
    DragAfterAllAppend(active, pre, events[k]);
    DragIgnoresOthers(DragAfterAll(active, pre + [events[k]]), post);
  }

  // ---------------------------------------------------------------- the component

  class UploadVideo {
    var tags: seq<string>
    var newTag: string
    var schedulePost: bool
    var dragActive: bool
    /** The drag events handled since the component mounted or since the
      * last drop. */
    ghost var dragEvents: seq<string>

    /** The tags are distinct, non-empty and trimmed, and the highlight is
      * the one the drag events since the last drop lead to. */
    ghost predicate Valid()
      reads this
    {
      && NoDup(tags) && (forall t :: t in tags ==> CleanTag(t))
      && dragActive == DragAfterAll(false, dragEvents)
    }

    constructor ()
      ensures Valid()
      ensures tags == [] && newTag == "" && !schedulePost && !dragActive
    {
      tags := [];
      newTag := "";
      schedulePost := false;
      dragActive := false;
      dragEvents := [];
    }

    /** Typing in the tag box. */
    method SetNewTag(value: string)
      requires Valid()
      modifies this
      ensures Valid()
      ensures newTag == value
      ensures tags == old(tags) && schedulePost == old(schedulePost) && dragActive == old(dragActive)
    {
      newTag := value;
    }

    /** `addTag`: the Add button or Enter in the tag box. The box is cleared
      * only when the tag was added. */
    method AddTag()
      requires Valid()
      modifies this
      ensures Valid()
      ensures tags == AddTagTo(old(tags), old(newTag))
      ensures newTag == if TagAccepted(old(tags), old(newTag)) then "" else old(newTag)
      ensures schedulePost == old(schedulePost) && dragActive == old(dragActive)
    {
      AddTagSpec(tags, newTag);
      if TagAccepted(tags, newTag) {
        tags := tags + [Trim(newTag)];
        newTag := "";
      }
    }

    /** `removeTag(tag)`: the X on a tag badge. */
    method RemoveTag(tagToRemove: string)
      requires Valid()
      modifies this
      ensures Valid()
      ensures tags == RemoveTagFrom(old(tags), tagToRemove)
      ensures newTag == old(newTag) && schedulePost == old(schedulePost) && dragActive == old(dragActive)
    {
      RemoveTagSpec(tags, tagToRemove);
      tags := RemoveTagFrom(tags, tagToRemove);
    }

    /** The "Schedule post for later" switch. */
    method SetSchedulePost(checked: bool)
      requires Valid()
      modifies this
      ensures Valid()
      ensures schedulePost == checked
      ensures tags == old(tags) && newTag == old(newTag) && dragActive == old(dragActive)
    {
      schedulePost := checked;
    }

    /** `handleDrag`, given the event's `type`. */
    method HandleDrag(eventType: string)
      requires Valid()
      modifies this
      ensures Valid()
      ensures dragActive == DragActiveAfter(old(dragActive), eventType)
      ensures dragEvents == old(dragEvents) + [eventType]
      ensures tags == old(tags) && newTag == old(newTag) && schedulePost == old(schedulePost)
    {
      DragAfterAllAppend(false, dragEvents, eventType);
      dragEvents := dragEvents + [eventType];
      if eventType == "dragenter" || eventType == "dragover" {
        dragActive := true;
      } else if eventType == "dragleave" {
        dragActive := false;
      }
    }

    /** `handleDrop`: the dropped files are not read; the highlight goes off. */
    method HandleDrop()
      requires Valid()
      modifies this
      ensures Valid()
      ensures !dragActive && dragEvents == []
      ensures tags == old(tags) && newTag == old(newTag) && schedulePost == old(schedulePost)
    {
      dragActive := false;
      dragEvents := [];
    }
  }
}
