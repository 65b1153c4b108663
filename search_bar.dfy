/** `SearchBar`: the tag filter of the dashboard. The selected tags belong
    to the parent and are replaced through `onTagsChange`; they are a field
    here, beside the text of the input. */
module SearchBar {
  import opened Common
  import opened TagInput

  const DuplicateMessage: string := "This tag is already selected"

  class TagSearch {
    var selectedTags: seq<string>
    var inputValue: string
    var toasts: seq<string>

    constructor (tags: seq<string>)
      ensures selectedTags == tags && inputValue == "" && toasts == []
    {
      selectedTags, inputValue, toasts := tags, "", [];
    }

    /** At most four tags, none twice. */
    predicate Valid()
      reads this
    {
      |selectedTags| <= MaxTags && Distinct(selectedTags)
    }

    method SetInput(value: string)
      modifies this
      ensures inputValue == value && selectedTags == old(selectedTags) && toasts == old(toasts)
    {
      inputValue := value;
    }

    /** `handleKeyDown`: only Enter with a non-blank input acts. A full
        list refuses before a duplicate is looked for; a new tag is
        appended trimmed and the input cleared; a duplicate is refused
        and the input kept. A valid list stays valid. */
    method HandleKeyDown(key: string)
      modifies this
      ensures old(Valid()) ==> Valid()
      ensures key != "Enter" || IsBlank(old(inputValue)) ==>
        selectedTags == old(selectedTags) && inputValue == old(inputValue) && toasts == old(toasts)
      ensures key == "Enter" && !IsBlank(old(inputValue)) ==>
        var tag := Trim(old(inputValue));
        && (|old(selectedTags)| >= MaxTags ==>
              selectedTags == old(selectedTags) && inputValue == old(inputValue)
              && toasts == old(toasts) + [MaxTagsMessage])
        && (|old(selectedTags)| < MaxTags && tag !in old(selectedTags) ==>
              selectedTags == old(selectedTags) + [tag] && inputValue == "" && toasts == old(toasts))
        && (|old(selectedTags)| < MaxTags && tag in old(selectedTags) ==>
              selectedTags == old(selectedTags) && inputValue == old(inputValue)
              && toasts == old(toasts) + [DuplicateMessage])
    {
      if key != "Enter" || IsBlank(inputValue) {
        return;
      }
      var newTag := Trim(inputValue);
      if |selectedTags| >= MaxTags {
        toasts := toasts + [MaxTagsMessage];
        return;
      }
      if newTag !in selectedTags {
        if Distinct(selectedTags) {
          AppendKeepsDistinct(selectedTags, newTag);
        }
        selectedTags := selectedTags + [newTag];
        inputValue := "";
      } else {
        toasts := toasts + [DuplicateMessage];
      }
    }

    /** `removeTag`: every copy of the tag goes, the rest keep their order
        (`Common.WithoutConcat`); a valid list stays valid. */
    method RemoveTag(tag: string)
      modifies this
      ensures selectedTags == Without(old(selectedTags), tag)
      ensures tag !in selectedTags
      ensures inputValue == old(inputValue) && toasts == old(toasts)
      ensures old(Valid()) ==> Valid()
    {
      if Distinct(selectedTags) {
        WithoutDistinct(selectedTags, tag);
      }
      selectedTags := Without(selectedTags, tag);
    }
  }

  lemma AppendKeepsDistinct(tags: seq<string>, tag: string)
    requires Distinct(tags) && tag !in tags
    ensures Distinct(tags + [tag])
  {
    var r := tags + [tag];
    forall i, j | 0 <= i < j < |r| ensures r[i] != r[j] {
      if j == |tags| {
        assert r[i] == tags[i];
      } else {
        assert r[i] == tags[i] && r[j] == tags[j];
      }
    }
  }
}
