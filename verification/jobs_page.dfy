/** The job postings page's form state: the dialog's fields and tag chips,
    and the list of jobs posted from this page. */
module JobsPage {
  import opened TagList

  /** The `newJob` object the dialog edits. */
  datatype JobForm = JobForm(
    title: string,
    company: string,
    location: string,
    description: string,
    applicationLink: string,
    jobType: string,
    tags: seq<string>)

  /** The form as it opens and as every close leaves it. */
  const EMPTY_FORM := JobForm("", "", "", "", "", "Full-time", [])

  /** `{ ...newJob, id }`. */
  datatype PostedJob = PostedJob(id: nat, form: JobForm)

  /** The jobs are numbered 1, 2, 3, ... in list order. */
  ghost predicate NumberedInOrder(jobs: seq<PostedJob>) {
    forall i :: 0 <= i < |jobs| ==> jobs[i].id == i + 1
  }

  class JobPostingsPage {
    var jobs: seq<PostedJob>
    var open: bool
    var tagInput: string
    var newJob: JobForm

    ghost predicate Valid()
      reads this
    {
      WellFormedTags(newJob.tags) && NumberedInOrder(jobs)
    }

    constructor ()
      ensures Valid()
      ensures jobs == [] && !open && tagInput == "" && newJob == EMPTY_FORM
    {
      jobs := [];
      open := false;
      tagInput := "";
      newJob := EMPTY_FORM;
    }

    /** The mount effect: the sample jobs, numbered from 1. */
    method Load(sample: seq<PostedJob>)
      requires Valid()
      requires NumberedInOrder(sample)
      modifies this
      ensures Valid()
      ensures jobs == sample
      ensures open == old(open) && tagInput == old(tagInput) && newJob == old(newJob)
    {
      jobs := sample;
    }

    method ClickOpen()
      requires Valid()
      modifies this
      ensures Valid()
      ensures open
      ensures jobs == old(jobs) && tagInput == old(tagInput) && newJob == old(newJob)
    {
      open := true;
    }

    /** `handleClose`: the dialog closes and the form is back to its
        defaults. */
    method Close()
      requires Valid()
      modifies this
      ensures Valid()
      ensures !open && tagInput == "" && newJob == EMPTY_FORM
      ensures jobs == old(jobs)
    {
      open := false;
      tagInput := "";
      newJob := EMPTY_FORM;
    }

    /** `handleAddTag`: the trimmed input joins the tags when it is
        non-empty and new; the input box is cleared either way. */
    method AddTag()
      requires Valid()
      modifies this
      ensures Valid()
      ensures newJob == old(newJob).(tags := WithTag(old(newJob.tags), old(tagInput)))
      ensures tagInput == ""
      ensures jobs == old(jobs) && open == old(open)
    {
      AddKeepsTagsWellFormed(newJob.tags, tagInput);
      newJob := newJob.(tags := WithTag(newJob.tags, tagInput));
      tagInput := "";
    }

    /** `handleDeleteTag`: every copy of the tag goes, the rest keep their
        order, and nothing else in the form changes. */
    method DeleteTag(tagToDelete: string)
      requires Valid()
      modifies this
      ensures Valid()
      ensures newJob == old(newJob).(tags := WithoutTag(old(newJob.tags), tagToDelete))
      ensures tagInput == old(tagInput) && jobs == old(jobs) && open == old(open)
    {
      DeleteKeepsTagsWellFormed(newJob.tags, tagToDelete);
      newJob := newJob.(tags := WithoutTag(newJob.tags, tagToDelete));
    }

    /** `handleSubmit`: the form is appended as the next-numbered job and
        then reset. */
    method Submit()
      requires Valid()
      modifies this
      ensures Valid()
      ensures jobs == old(jobs) + [PostedJob(|old(jobs)| + 1, old(newJob))]
      ensures !open && tagInput == "" && newJob == EMPTY_FORM
    {
      jobs := jobs + [PostedJob(|jobs| + 1, newJob)];
      Close();
    }
  }
}
