/** The tag chips of the job and event forms: a tag is the trimmed input,
    added only when non-empty and not already present, and deleting a tag
    drops every copy of it. */
module TagList {
  import opened Text
  import opened Seqs

  /** What the forms keep: no tag twice, none empty, none with white space
      at either end. */
  ghost predicate WellFormedTags(tags: seq<string>) {
    && NoDuplicates(tags)
    && forall i :: 0 <= i < |tags| ==> tags[i] != "" && Trim(tags[i]) == tags[i]
  }

  /** `handleAddTag`'s effect on the list. */
  function WithTag(tags: seq<string>, input: string): (r: seq<string>)
    ensures Trim(input) != "" && Trim(input) !in tags ==> r == tags + [Trim(input)]
    ensures Trim(input) == "" || Trim(input) in tags ==> r == tags
  {
    var tag := Trim(input);
    if tag != "" && tag !in tags then tags + [tag] else tags
  }

  /** `tags.filter(tag => tag !== tagToDelete)`. */
  function WithoutTag(tags: seq<string>, tag: string): (r: seq<string>)
    ensures forall t :: t in r <==> t in tags && t != tag
    ensures IsSubsequence(r, tags)
  {
    RemoveAll(tags, tag)
  }

  /** Adding keeps the list well formed, whatever was typed. */
  lemma AddKeepsTagsWellFormed(tags: seq<string>, input: string)
    requires WellFormedTags(tags)
    ensures WellFormedTags(WithTag(tags, input))
  {
    var tag := Trim(input);
    if tag != "" && tag !in tags {
      TrimIdempotent(input);
      assert AddToSet(tags, tag) == tags + [tag];
    }
  }

  /** Deleting keeps the list well formed. */
  lemma DeleteKeepsTagsWellFormed(tags: seq<string>, tag: string)
    requires WellFormedTags(tags)
    ensures WellFormedTags(WithoutTag(tags, tag))
  {
    var r := WithoutTag(tags, tag);
    forall i | 0 <= i < |r| ensures r[i] != "" && Trim(r[i]) == r[i] {
      assert r[i] in tags;
    }
  }

  /** A tag that was added is in the list afterwards, and deleting it
      brings back the list as it was. */
  lemma DeleteUndoesAdd(tags: seq<string>, input: string)
    requires Trim(input) != "" && Trim(input) !in tags
    ensures Trim(input) in WithTag(tags, input)
    ensures WithoutTag(WithTag(tags, input), Trim(input)) == tags
  {
    PullUndoesAddToSet(tags, Trim(input));
  }

  /** Typing a tag that is already there, with or without surrounding
      spaces, changes nothing. */
  lemma AddIsIdempotent(tags: seq<string>, input: string)
    ensures WithTag(WithTag(tags, input), input) == WithTag(tags, input)
  {
  }
}
