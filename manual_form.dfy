/** `ManualFlashcardForm`: the form that creates a card by hand. The form
    data is the `POST` body; the answer is a parameter. */
module ManualForm {
  import opened Common
  import opened Types
  import opened TagInput

  const EmptyForm: CreateCommand := CreateCommand("", "", None, [])
  const CreateFailedMessage: string := "Failed to create flashcard"
  const CreatedMessage: string := "Flashcard created successfully"

  /** The answer to the `POST`. */
  datatype Answer = Threw(message: string) | NotOk | Answered(card: FlashcardDTO)

  datatype Toast = ErrorToast(message: string) | SuccessToast(message: string)

  class ManualFlashcardForm {
    var formData: CreateCommand
    var isSubmitting: bool
    var toasts: seq<Toast>
    /** The bodies of the `POST` requests sent, in order. */
    var requests: seq<CreateCommand>
    /** The cards handed to `onAdd`, in order. */
    var added: seq<FlashcardDTO>

    constructor ()
      ensures formData == EmptyForm && !isSubmitting && toasts == [] && requests == [] && added == []
    {
      formData, isSubmitting, toasts, requests, added := EmptyForm, false, [], [], [];
    }

    /** The text the tag field shows. */
    function TagsDisplay(): string
      reads this
    {
      TagsField(formData.tags)
    }

    method SetFront(value: string)
      modifies this
      ensures formData == old(formData).(front := value)
      ensures isSubmitting == old(isSubmitting) && toasts == old(toasts) && requests == old(requests) && added == old(added)
    {
      formData := formData.(front := value);
    }

    method SetBack(value: string)
      modifies this
      ensures formData == old(formData).(back := value)
      ensures isSubmitting == old(isSubmitting) && toasts == old(toasts) && requests == old(requests) && added == old(added)
    {
      formData := formData.(back := value);
    }

    method SetPhonetic(value: string)
      modifies this
      ensures formData == old(formData).(phonetic := PhoneticInput(value))
      ensures isSubmitting == old(isSubmitting) && toasts == old(toasts) && requests == old(requests) && added == old(added)
    {
      formData := formData.(phonetic := PhoneticInput(value));
    }

    /** `handleTagsChange`: every parsed tag is stored, without a limit,
        and the field then shows them joined by ", " (which parses back to
        the same tags, `TagInput.ParseIsIdempotent`). */
    method HandleTagsChange(value: string)
      modifies this
      ensures formData == old(formData).(tags := ParseTags(value))
      ensures TagsDisplay() == TagsField(ParseTags(value))
      ensures isSubmitting == old(isSubmitting) && toasts == old(toasts) && requests == old(requests) && added == old(added)
    {
      formData := formData.(tags := ParseTags(value));
    }

    /** `handleSubmit`: a refused form sends nothing and is kept. A sent
        form is reset after success and kept after failure; either way
        `isSubmitting` ends false. */
    method HandleSubmit(answer: Answer) returns (sent: bool)
      modifies this
      ensures sent <==> SubmitError(old(formData).front, old(formData).back, old(formData).tags).None?
      ensures !sent ==>
        && toasts == old(toasts) + [ErrorToast(SubmitError(old(formData).front, old(formData).back, old(formData).tags).value)]
        && formData == old(formData) && requests == old(requests) && added == old(added)
        && isSubmitting == old(isSubmitting)
      ensures sent ==> requests == old(requests) + [old(formData)] && !isSubmitting
      ensures sent ==> match answer
        case Answered(card) =>
          added == old(added) + [card] && formData == EmptyForm && toasts == old(toasts) + [SuccessToast(CreatedMessage)]
        case Threw(message) =>
          added == old(added) && formData == old(formData) && toasts == old(toasts) + [ErrorToast(message)]
        case NotOk =>
          added == old(added) && formData == old(formData) && toasts == old(toasts) + [ErrorToast(CreateFailedMessage)]
    {
      var check := SubmitError(formData.front, formData.back, formData.tags);
      if check.Some? {
        Refuse(check.value);
        return false;
      }
      sent := true;
      Send(answer);
    }

    /** A refused submit: the message is shown and nothing else changes. */
    method Refuse(message: string)
      modifies this
      ensures toasts == old(toasts) + [ErrorToast(message)]
      ensures formData == old(formData) && requests == old(requests) && added == old(added)
      ensures isSubmitting == old(isSubmitting)
    {
      toasts := toasts + [ErrorToast(message)];
    }

    /** A sent submit: the request is made, the answer handled and
        `isSubmitting` ends false. */
    method Send(answer: Answer)
      modifies this
      ensures requests == old(requests) + [old(formData)] && !isSubmitting
      ensures match answer
        case Answered(card) =>
          added == old(added) + [card] && formData == EmptyForm && toasts == old(toasts) + [SuccessToast(CreatedMessage)]
        case Threw(message) =>
          added == old(added) && formData == old(formData) && toasts == old(toasts) + [ErrorToast(message)]
        case NotOk =>
          added == old(added) && formData == old(formData) && toasts == old(toasts) + [ErrorToast(CreateFailedMessage)]
    {
      isSubmitting := true;
      requests := requests + [formData];
      Receive(answer);
      isSubmitting := false;
    }

    /** The `try` block after the request. */
    method Receive(answer: Answer)
      modifies this
      ensures requests == old(requests) && isSubmitting == old(isSubmitting)
      ensures match answer
        case Answered(card) =>
          added == old(added) + [card] && formData == EmptyForm && toasts == old(toasts) + [SuccessToast(CreatedMessage)]
        case Threw(message) =>
          added == old(added) && formData == old(formData) && toasts == old(toasts) + [ErrorToast(message)]
        case NotOk =>
          added == old(added) && formData == old(formData) && toasts == old(toasts) + [ErrorToast(CreateFailedMessage)]
    {
      match answer {
        case Threw(message) =>
          toasts := toasts + [ErrorToast(message)];
        case NotOk =>
          toasts := toasts + [ErrorToast(CreateFailedMessage)];
        case Answered(card) =>
          added := added + [card];
          formData := EmptyForm;
          toasts := toasts + [SuccessToast(CreatedMessage)];
      }
    }
  }

  /** Unlike the dashboard editor's field, this one does not cut the list
      at four tags: typing five or more clean tags gets the submit refused. */
  lemma TypedTagsCanBeRefused(front: string, back: string, tags: seq<string>)
    requires !IsBlank(front) && !IsBlank(back)
    requires |tags| > MaxTags && forall i :: 0 <= i < |tags| ==> IsCleanTag(tags[i])
    ensures SubmitError(front, back, ParseTags(TagsField(tags))) == Some(MaxTagsMessage)
  {
    ParseFieldRoundTrip(tags);
  }
}
