/**
 * The tag-list editor (src/components/TagsInput.tsx). The component keeps
 * the text being typed; the tag list belongs to the parent and is replaced
 * through the change callback. An editor step is modelled as a function from
 * the (tags, input) pair to the next pair.
 */
module TagsInput {
  import opened Common

  datatype Editor = Editor(tags: seq<string>, input: string)

  function IsNot(tag: string): string -> bool {
    (t: string) => t != tag
  }

  /** `addTag`: append the trimmed input when it is non-empty and new, then clear the input. */
  function AddTag(editable: bool, e: Editor): (r: Editor)
    ensures !editable ==> r == e
    ensures editable ==> r.input == ""
    ensures editable && Trim(e.input) != "" && Trim(e.input) !in e.tags ==> r.tags == e.tags + [Trim(e.input)]
    ensures editable && (Trim(e.input) == "" || Trim(e.input) in e.tags) ==> r.tags == e.tags
  {
    if !editable then e
    else
      var t := Trim(e.input);
      if t != "" && t !in e.tags then Editor(e.tags + [t], "") else Editor(e.tags, "")
  }

  /** `removeTag`: keep every tag other than `tag`, in order; the input is untouched. */
  function RemoveTag(editable: bool, e: Editor, tag: string): (r: Editor)
    ensures !editable ==> r == e
    ensures r.input == e.input
    ensures editable ==> forall x :: x in r.tags <==> x in e.tags && x != tag
    ensures editable ==> forall x :: multiset(r.tags)[x] == if x == tag then 0 else multiset(e.tags)[x]
    ensures editable ==> |r.tags| == |e.tags| - multiset(e.tags)[tag]
  {
    if !editable then e
    else
      FilterMembersAll(e.tags, IsNot(tag));
      forall x ensures multiset(Filter(e.tags, IsNot(tag)))[x] == if x == tag then 0 else multiset(e.tags)[x] {
        FilterCount(e.tags, IsNot(tag), x);
      }
      RemovedLength(e.tags, tag);
      Editor(Filter(e.tags, IsNot(tag)), e.input)
  }

  /** Filtering out `tag` shortens the list by its number of copies. */
  lemma {:induction false} RemovedLength(tags: seq<string>, tag: string)
    ensures |Filter(tags, IsNot(tag))| == |tags| - multiset(tags)[tag]
  {
    if tags != [] {
      RemovedLength(tags[1..], tag);
      assert tags == [tags[0]] + tags[1..];
    }
  }

  /** A blank input adds nothing, even when there is white space to clear. */
  lemma BlankInputAddsNothing(e: Editor)
    requires AllWhitespace(e.input)
    ensures AddTag(true, e) == Editor(e.tags, "")
  {
    TrimEmptyIffBlank(e.input);
  }

  /** `addTag` keeps a duplicate-free list duplicate-free. */
  lemma AddTagKeepsDistinct(editable: bool, e: Editor)
    requires NoDuplicates(e.tags)
    ensures NoDuplicates(AddTag(editable, e).tags)
  {
  }

  /**
   * `removeTag` deletes every occurrence and keeps every copy of every other
   * tag, in order; an absent tag changes nothing.
   */
  lemma RemoveTagSpec(e: Editor, tag: string)
    ensures tag !in RemoveTag(true, e, tag).tags
    ensures IsSubsequence(RemoveTag(true, e, tag).tags, e.tags)
    ensures forall x :: x != tag ==> multiset(RemoveTag(true, e, tag).tags)[x] == multiset(e.tags)[x]
    ensures tag !in e.tags ==> RemoveTag(true, e, tag) == e
  {
    FilterIsSubsequence(e.tags, IsNot(tag));
    if tag !in e.tags {
      FilterAll(e.tags, IsNot(tag));
    }
  }

  /** Removing the tag that `addTag` just added gives back the original list (with the input cleared). */
  lemma RemoveUndoesAdd(e: Editor)
    requires Trim(e.input) != "" && Trim(e.input) !in e.tags
    ensures RemoveTag(true, AddTag(true, e), Trim(e.input)) == Editor(e.tags, "")
  {
    var t := Trim(e.input);
    FilterAppend(e.tags, [t], IsNot(t));
    FilterAll(e.tags, IsNot(t));
    assert Filter([t], IsNot(t)) == [];
  }
}
