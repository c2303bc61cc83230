/** The events page's form state: the dialog's fields and tag chips, and the
    list of events created from this page. */
module EventsPage {
  import opened Text
  import opened TagList

  /** `{ id, title, date, location, description, tags }`. */
  datatype PageEvent = PageEvent(
    id: nat,
    title: string,
    date: string,
    location: string,
    description: string,
    tags: seq<string>)

  /** The events are numbered 1, 2, 3, ... in list order. */
  ghost predicate NumberedInOrder(events: seq<PageEvent>) {
    forall i :: 0 <= i < |events| ==> events[i].id == i + 1
  }

  class EventsPageState {
    var events: seq<PageEvent>
    var open: bool
    var title: string
    var date: string
    var location: string
    var description: string
    var tagInput: string
    var tags: seq<string>

    ghost predicate Valid()
      reads this
    {
      WellFormedTags(tags) && NumberedInOrder(events)
    }

    /** The form is empty: what every close leaves. */
    ghost predicate Cleared()
      reads this
    {
      && !open && title == "" && date == "" && location == "" && description == ""
      && tagInput == "" && tags == []
    }

    constructor ()
      ensures Valid() && Cleared() && events == []
    {
      events := [];
      open := false;
      title, date, location, description := "", "", "", "";
      tagInput := "";
      tags := [];
    }

    /** The mount effect: the sample events, numbered from 1. */
    method Load(sample: seq<PageEvent>)
      requires Valid()
      requires NumberedInOrder(sample)
      modifies this
      ensures Valid()
      ensures events == sample
      ensures open == old(open) && tagInput == old(tagInput) && tags == old(tags)
      ensures title == old(title) && date == old(date) && location == old(location) && description == old(description)
    {
      events := sample;
    }

    /** `handleClose`: every field and the tags are emptied. */
    method Close()
      requires Valid()
      modifies this
      ensures Valid() && Cleared()
      ensures events == old(events)
    {
      open := false;
      title, date, location, description := "", "", "", "";
      tags := [];
      tagInput := "";
    }

    /** `handleAddTag`: the trimmed input joins the tags when it is
        non-empty and new, and only then is the input box cleared. */
    method AddTag()
      requires Valid()
      modifies this
      ensures Valid()
      ensures tags == WithTag(old(tags), old(tagInput))
      ensures tagInput == if tags != old(tags) then "" else old(tagInput)
      ensures events == old(events) && open == old(open)
      ensures title == old(title) && date == old(date) && location == old(location) && description == old(description)
    {
      AddKeepsTagsWellFormed(tags, tagInput);
      var trimmed := Trim(tagInput);
      if trimmed != "" && trimmed !in tags {
        tags := tags + [trimmed];
        tagInput := "";
        assert |tags| == |old(tags)| + 1;
      }
    }

    /** `handleDeleteTag`. */
    method DeleteTag(tagToDelete: string)
      requires Valid()
      modifies this
      ensures Valid()
      ensures tags == WithoutTag(old(tags), tagToDelete)
      ensures tagInput == old(tagInput) && events == old(events) && open == old(open)
      ensures title == old(title) && date == old(date) && location == old(location) && description == old(description)
    {
      DeleteKeepsTagsWellFormed(tags, tagToDelete);
      tags := WithoutTag(tags, tagToDelete);
    }

    /** `handleCreateEvent`: the form's fields and tags become the next
        event, then the form is emptied. */
    method CreateEvent()
      requires Valid()
      modifies this
      ensures Valid() && Cleared()
      ensures events == old(events) + [PageEvent(|old(events)| + 1, old(title), old(date), old(location), old(description), old(tags))]
    {
      events := events + [PageEvent(|events| + 1, title, date, location, description, tags)];
      Close();
    }
  }
}
