/** The `TagInput` component: a text box whose Enter key adds the typed tag to the list
    and whose Backspace key, on an empty box, removes the last tag; each tag also has a
    remove button. The tag list belongs to the parent and is changed only by reporting a
    new list through `onChange`. */
module TagInput {

  import opened Coupons
  import opened Seqs
  import opened JsString

  /** `e.key` as the handler distinguishes it. */
  datatype Key = Enter | Backspace | OtherKey

  /** What one key press does: the list reported to `onChange`, if any, and the text left
      in the box. */
  datatype Outcome = Outcome(emitted: Option<seq<string>>, input: string)

  /** The tag list the parent holds after the outcome is applied. */
  function TagsAfter(o: Outcome, tags: seq<string>): seq<string>
  {
    match o.emitted
    case Some(next) => next
    case None => tags
  }

  /** `handleKeyDown`. Enter on a box that is not blank adds the trimmed text unless the
      list has it already, and empties the box either way; Backspace on an empty box
      drops the last tag when there is one; every other press changes nothing. */
  function KeyDown(key: Key, input: string, tags: seq<string>): (o: Outcome)
    ensures key == Enter && !AllWhitespace(input) ==>
      var after := TagsAfter(o, tags);
      && o.input == []
      && Trim(input) in after
      && (Trim(input) in tags ==> o.emitted.None?)
      && (Trim(input) !in tags ==> after == tags + [Trim(input)])
    ensures key == Backspace && input == [] && tags != [] ==>
      o.input == input && o.emitted.Some? && o.emitted.value + [tags[|tags| - 1]] == tags
    ensures !(key == Enter && !AllWhitespace(input)) && !(key == Backspace && input == [] && tags != []) ==>
      o == Outcome(None, input)
  {
    if key == Enter && Trim(input) != [] then
      var newTag := Trim(input);
      Outcome(if newTag in tags then None else Some(tags + [newTag]), [])
    else if key == Backspace && input == [] && |tags| > 0 then
      assert tags[..|tags| - 1] + [tags[|tags| - 1]] == tags;
      Outcome(Some(tags[..|tags| - 1]), input)
    else Outcome(None, input)
  }

  /** `removeTag`: every occurrence of the tag is dropped, the other tags keep their order. */
  function RemoveTag(tags: seq<string>, tagToRemove: string): (r: seq<string>)
    ensures tagToRemove !in r
    ensures forall t :: t != tagToRemove ==> multiset(r)[t] == multiset(tags)[t]
    ensures SubsequenceOf(r, tags)
  {
    FilterSpec((t: string) => t != tagToRemove, tags);
    Filter((t: string) => t != tagToRemove, tags)
  }

  /** A key press never makes a list without duplicates have one. */
  lemma KeyDownKeepsNoDuplicates(key: Key, input: string, tags: seq<string>)
    requires NoDuplicates(tags)
    ensures NoDuplicates(TagsAfter(KeyDown(key, input, tags), tags))
  {
    var o := KeyDown(key, input, tags);
    var after := TagsAfter(o, tags);
    if key == Enter && !AllWhitespace(input) && Trim(input) !in tags {
      forall i, j | 0 <= i < j < |after| ensures after[i] != after[j] {
        if j == |tags| {
          assert after[i] in tags;
        }
      }
    } else if key == Backspace && input == [] && tags != [] {
      forall i, j | 0 <= i < j < |after| ensures after[i] != after[j] {
        assert after[i] == tags[i] && after[j] == tags[j];
      }
    }
  }

  /** Removing a tag never makes a list without duplicates have one. */
  lemma RemoveTagKeepsNoDuplicates(tags: seq<string>, tagToRemove: string)
    requires NoDuplicates(tags)
    ensures NoDuplicates(RemoveTag(tags, tagToRemove))
  {
    FilterNoDuplicates((t: string) => t != tagToRemove, tags);
  }

  /** Removing a tag the list does not hold reports the same list. */
  lemma RemoveAbsentTag(tags: seq<string>, tagToRemove: string)
    requires tagToRemove !in tags
    ensures RemoveTag(tags, tagToRemove) == tags
  {
    FilterAll((t: string) => t != tagToRemove, tags);
  }

  /** The component's own state: the text in the box. */
  class TagInputState {
    var inputValue: string

    /** `useState('')`. */
    constructor ()
      ensures inputValue == []
    {
      inputValue := [];
    }

    /** The box's `onChange`: the typed text replaces the state. */
    method Type(value: string)
      modifies this
      ensures inputValue == value
    {
      inputValue := value;
    }

    /** `handleKeyDown` on the current text, returning the list passed to `onChange`. */
    method HandleKeyDown(key: Key, tags: seq<string>) returns (emitted: Option<seq<string>>)
      modifies this
      ensures emitted == KeyDown(key, old(inputValue), tags).emitted
      ensures inputValue == KeyDown(key, old(inputValue), tags).input
    {
      emitted := None;
      if key == Enter && Trim(inputValue) != [] {
        var newTag := Trim(inputValue);
        if newTag !in tags {
          emitted := Some(tags + [newTag]);
        }
        inputValue := [];
      } else if key == Backspace && inputValue == [] && |tags| > 0 {
        emitted := Some(tags[..|tags| - 1]);
      }
    }
  }
}
