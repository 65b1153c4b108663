/** `DashboardFlashcardItem`: the in-place editor of a saved card. The
    request body is the edit buffer itself; the answer of the `PUT` is a
    parameter. */
module DashboardItem {
  import opened Common
  import opened Types
  import opened TagInput

  /** The first four parsed tags: what the tag field stores. */
  function FieldTags(value: string): (r: seq<string>)
    ensures |r| <= MaxTags && |r| <= |ParseTags(value)|
    ensures r == ParseTags(value)[..|r|]
    ensures |ParseTags(value)| <= MaxTags ==> r == ParseTags(value)
  {
    var tags := ParseTags(value);
    if |tags| <= MaxTags then tags else tags[..MaxTags]
  }

  /** Every stored tag is clean, and when the field holds at most four
      tags, showing and re-parsing them gives them back. */
  lemma FieldTagsClean(value: string)
    ensures forall i :: 0 <= i < |FieldTags(value)| ==> IsCleanTag(FieldTags(value)[i])
    ensures FieldTags(TagsField(FieldTags(value))) == FieldTags(value)
  {
    ParsedTagsAreClean(value);
    var r := FieldTags(value);
    assert forall i :: 0 <= i < |r| ==> r[i] == ParseTags(value)[i];
    ParseFieldRoundTrip(r);
  }

  /** The initial buffer of a card. */
  function EditDataOf(card: FlashcardDTO): UpdateCommand
  {
    UpdateCommand(card.id, card.front, card.back, Given(card.phonetic), card.tags)
  }

  const UpdateFailedMessage: string := "Failed to update flashcard"
  const UpdatedMessage: string := "Flashcard updated successfully"

  /** The answer to the `PUT`: `fetch` or reading the body threw, the
      status was not OK, or the updated card came back. */
  datatype Answer = Threw(message: string) | NotOk | Answered(card: FlashcardDTO)

  datatype Toast = ErrorToast(message: string) | SuccessToast(message: string)

  class DashboardEditor {
    const flashcard: FlashcardDTO
    var isEditing: bool
    var isSubmitting: bool
    var tagsInput: string
    var editData: UpdateCommand
    var toasts: seq<Toast>
    /** The bodies of the `PUT` requests sent, in order. */
    var requests: seq<UpdateCommand>
    /** The cards handed to `onEdit`, in order. */
    var edits: seq<FlashcardDTO>

    constructor (card: FlashcardDTO)
      ensures flashcard == card && !isEditing && !isSubmitting
      ensures tagsInput == TagsField(card.tags) && editData == EditDataOf(card)
      ensures toasts == [] && requests == [] && edits == []
    {
      flashcard, isEditing, isSubmitting := card, false, false;
      tagsInput, editData := TagsField(card.tags), EditDataOf(card);
      toasts, requests, edits := [], [], [];
    }

    method BeginEdit()
      modifies this
      ensures isEditing && isSubmitting == old(isSubmitting) && tagsInput == old(tagsInput)
      ensures editData == old(editData) && toasts == old(toasts) && requests == old(requests) && edits == old(edits)
    {
      isEditing := true;
    }

    /** The Cancel button only closes the editor; the buffer is kept. */
    method Cancel()
      modifies this
      ensures !isEditing && isSubmitting == old(isSubmitting) && tagsInput == old(tagsInput)
      ensures editData == old(editData) && toasts == old(toasts) && requests == old(requests) && edits == old(edits)
    {
      isEditing := false;
    }

    method SetFront(value: string)
      modifies this
      ensures editData == old(editData).(front := value)
      ensures isEditing == old(isEditing) && isSubmitting == old(isSubmitting) && tagsInput == old(tagsInput)
      ensures toasts == old(toasts) && requests == old(requests) && edits == old(edits)
    {
      editData := editData.(front := value);
    }

    method SetBack(value: string)
      modifies this
      ensures editData == old(editData).(back := value)
      ensures isEditing == old(isEditing) && isSubmitting == old(isSubmitting) && tagsInput == old(tagsInput)
      ensures toasts == old(toasts) && requests == old(requests) && edits == old(edits)
    {
      editData := editData.(back := value);
    }

    /** An emptied phonetic input is stored as `null`. */
    method SetPhonetic(value: string)
      modifies this
      ensures editData == old(editData).(phonetic := Given(PhoneticInput(value)))
      ensures isEditing == old(isEditing) && isSubmitting == old(isSubmitting) && tagsInput == old(tagsInput)
      ensures toasts == old(toasts) && requests == old(requests) && edits == old(edits)
    {
      editData := editData.(phonetic := Given(PhoneticInput(value)));
    }

    /** `handleTagsChange`: the raw text is kept for the field, the tags
        are the first four parsed ones. */
    method HandleTagsChange(value: string)
      modifies this
      ensures tagsInput == value && editData == old(editData).(tags := FieldTags(value))
      ensures |editData.tags| <= MaxTags
      ensures isEditing == old(isEditing) && isSubmitting == old(isSubmitting)
      ensures toasts == old(toasts) && requests == old(requests) && edits == old(edits)
    {
      tagsInput := value;
      editData := editData.(tags := FieldTags(value));
    }

    /** `handleEdit`: a refused buffer sends nothing; a sent one is the
        buffer as typed (not trimmed). On success `onEdit` gets the
        server's card and the editor closes; on failure it stays open.
        Either way `isSubmitting` ends false. */
    method HandleEdit(answer: Answer) returns (sent: bool)
      modifies this
      ensures sent <==> SubmitError(old(editData).front, old(editData).back, old(editData).tags).None?
      ensures editData == old(editData) && tagsInput == old(tagsInput)
      ensures !sent ==>
        && toasts == old(toasts) + [ErrorToast(SubmitError(editData.front, editData.back, editData.tags).value)]
        && requests == old(requests) && edits == old(edits)
        && isEditing == old(isEditing) && isSubmitting == old(isSubmitting)
      ensures sent ==> requests == old(requests) + [old(editData)] && !isSubmitting
      ensures sent ==> match answer
        case Answered(card) =>
          edits == old(edits) + [card] && !isEditing && toasts == old(toasts) + [SuccessToast(UpdatedMessage)]
        case Threw(message) =>
          edits == old(edits) && isEditing == old(isEditing) && toasts == old(toasts) + [ErrorToast(message)]
        case NotOk =>
          edits == old(edits) && isEditing == old(isEditing) && toasts == old(toasts) + [ErrorToast(UpdateFailedMessage)]
    {
      var check := SubmitError(editData.front, editData.back, editData.tags);
      if check.Some? {
        Refuse(check.value);
        return false;
      }
      sent := true;
      Send(answer);
    }

    /** A refused edit: the message is shown and nothing else changes. */
    method Refuse(message: string)
      modifies this
      ensures toasts == old(toasts) + [ErrorToast(message)]
      ensures editData == old(editData) && tagsInput == old(tagsInput)
      ensures requests == old(requests) && edits == old(edits)
      ensures isEditing == old(isEditing) && isSubmitting == old(isSubmitting)
    {
      toasts := toasts + [ErrorToast(message)];
    }

    /** A sent edit: the request is made, the answer handled and
        `isSubmitting` ends false. */
    method Send(answer: Answer)
      modifies this
      ensures editData == old(editData) && tagsInput == old(tagsInput)
      ensures requests == old(requests) + [old(editData)] && !isSubmitting
      ensures match answer
        case Answered(card) =>
          edits == old(edits) + [card] && !isEditing && toasts == old(toasts) + [SuccessToast(UpdatedMessage)]
        case Threw(message) =>
          edits == old(edits) && isEditing == old(isEditing) && toasts == old(toasts) + [ErrorToast(message)]
        case NotOk =>
          edits == old(edits) && isEditing == old(isEditing) && toasts == old(toasts) + [ErrorToast(UpdateFailedMessage)]
    {
      isSubmitting := true;
      requests := requests + [editData];
      Receive(answer);
      isSubmitting := false;
    }

    /** The `try` block after the request: the answer decides the toast
        and whether `onEdit` runs and the editor closes. */
    method Receive(answer: Answer)
      modifies this
      ensures editData == old(editData) && tagsInput == old(tagsInput)
      ensures requests == old(requests) && isSubmitting == old(isSubmitting)
      ensures match answer
        case Answered(card) =>
          edits == old(edits) + [card] && !isEditing && toasts == old(toasts) + [SuccessToast(UpdatedMessage)]
        case Threw(message) =>
          edits == old(edits) && isEditing == old(isEditing) && toasts == old(toasts) + [ErrorToast(message)]
        case NotOk =>
          edits == old(edits) && isEditing == old(isEditing) && toasts == old(toasts) + [ErrorToast(UpdateFailedMessage)]
    {
      match answer {
        case Threw(message) =>
          toasts := toasts + [ErrorToast(message)];
        case NotOk =>
          toasts := toasts + [ErrorToast(UpdateFailedMessage)];
        case Answered(card) =>
          edits := edits + [card];
          isEditing := false;
          toasts := toasts + [SuccessToast(UpdatedMessage)];
      }
    }
  }

  /** Too many tags can only be refused for the tags a card opened with:
      after any change of the tag field the tag check passes. */
  lemma EditedTagsPass(front: string, back: string, value: string)
    requires !IsBlank(front) && !IsBlank(back)
    ensures SubmitError(front, back, FieldTags(value)) == None
  {
  }
}
