/** `FlashcardItem`: the editor of one generated candidate on the triage
    screen. The edit buffer holds the four fields as text; saving parses
    it back into a card handed to `onEdit`. */
module FlashcardItem {
  import opened Common
  import opened Types
  import opened TagInput

  /** The text fields of the edit buffer. */
  datatype EditableFlashcard = EditableFlashcard(front: string, back: string, phonetic: string, tags: string)

  const RequiredMessage: string := "Front and back text are required"

  /** The buffer a card opens with: phonetic `null` shows as "", the tags
      joined by ", ". */
  function BufferOf(card: GeneratedCard): EditableFlashcard
  {
    EditableFlashcard(card.front, card.back, if card.phonetic.Some? then card.phonetic.value else "", TagsField(card.tags))
  }

  /** What saving the buffer produces: the refusal message, or the card
      built from the trimmed fields, the parsed tags and the rest of the
      original. */
  function SavedCard(card: GeneratedCard, data: EditableFlashcard): Result<GeneratedCard>
  {
    if IsBlank(data.front) || IsBlank(data.back) then Err(RequiredMessage)
    else
      var tags := ParseTags(data.tags);
      if |tags| > MaxTags then Err(MaxTagsMessage)
      else Ok(GeneratedCard(Trim(data.front), Trim(data.back), PhoneticOf(data.phonetic), tags, card.source))
  }

  /** `phonetic.trim() || null` */
  function PhoneticOf(text: string): Option<string>
  {
    var t := Trim(text);
    if t == "" then None else Some(t)
  }

  /** Blank text is stored as no phonetic, other text trimmed. */
  lemma PhoneticOfSpec(text: string)
    ensures PhoneticOf(text).None? <==> IsBlank(text)
    ensures PhoneticOf(text).Some? ==> PhoneticOf(text).value == Trim(text) && IsTrimmed(PhoneticOf(text).value)
  {
  }

  lemma PhoneticRoundTrip(p: Option<string>)
    requires p.Some? ==> p.value != "" && IsTrimmed(p.value)
    ensures PhoneticOf(if p.Some? then p.value else "") == p
  {
    match p {
      case Some(v) => TrimOfTrimmed(v);
      case None => assert Trim("") == "";
    }
  }

  /** A save fails with the blank-field message before the tag count is
      looked at; a saved card has non-empty trimmed front and back, a
      trimmed non-empty phonetic or none, at most four clean tags and the
      original's source. */
  lemma SavedCardSpec(card: GeneratedCard, data: EditableFlashcard)
    ensures var r := SavedCard(card, data);
      && (IsBlank(data.front) || IsBlank(data.back) ==> r == Err(RequiredMessage))
      && (r.Ok? <==> !IsBlank(data.front) && !IsBlank(data.back) && |ParseTags(data.tags)| <= MaxTags)
      && (r.Err? && !IsBlank(data.front) && !IsBlank(data.back) ==> r.message == MaxTagsMessage)
      && (r.Ok? ==>
            && r.value.front == Trim(data.front) && r.value.front != "" && IsTrimmed(r.value.front)
            && r.value.back == Trim(data.back) && r.value.back != "" && IsTrimmed(r.value.back)
            && r.value.phonetic == PhoneticOf(data.phonetic)
            && r.value.tags == ParseTags(data.tags) && |r.value.tags| <= MaxTags
            && (forall i :: 0 <= i < |r.value.tags| ==> IsCleanTag(r.value.tags[i]))
            && r.value.source == card.source)
  {
    ParsedTagsAreClean(data.tags);
  }

  /** A card that is already clean is saved back unchanged when the buffer
      was not touched. */
  lemma SaveUntouched(card: GeneratedCard)
    requires !IsBlank(card.front) && IsTrimmed(card.front)
    requires !IsBlank(card.back) && IsTrimmed(card.back)
    requires card.phonetic.Some? ==> card.phonetic.value != "" && IsTrimmed(card.phonetic.value)
    requires |card.tags| <= MaxTags && forall i :: 0 <= i < |card.tags| ==> IsCleanTag(card.tags[i])
    ensures SavedCard(card, BufferOf(card)) == Ok(card)
  {
    var b := BufferOf(card);
    ParseFieldRoundTrip(card.tags);
    TrimOfTrimmed(card.front);
    TrimOfTrimmed(card.back);
    PhoneticRoundTrip(card.phonetic);
    assert SavedCard(card, b) == Ok(GeneratedCard(card.front, card.back, card.phonetic, card.tags, card.source));
  }

  class CandidateEditor {
    const flashcard: GeneratedCard
    var isEditing: bool
    var error: Option<string>
    var editedData: EditableFlashcard
    /** The cards handed to `onEdit`, in order. */
    var edits: seq<GeneratedCard>

    constructor (card: GeneratedCard)
      ensures flashcard == card && !isEditing && error == None && editedData == BufferOf(card) && edits == []
    {
      flashcard, isEditing, error, editedData, edits := card, false, None, BufferOf(card), [];
    }

    method BeginEdit()
      modifies this
      ensures isEditing && error == old(error) && editedData == old(editedData) && edits == old(edits)
    {
      isEditing := true;
    }

    /** Typing into the buffer. */
    method SetBuffer(data: EditableFlashcard)
      modifies this
      ensures editedData == data && isEditing == old(isEditing) && error == old(error) && edits == old(edits)
    {
      editedData := data;
    }

    /** `handleSave`: on a refusal the message is shown and edit mode
        stays; otherwise `onEdit` gets the card once, edit mode ends and
        the error is cleared. */
    method HandleSave()
      modifies this
      ensures editedData == old(editedData)
      ensures match SavedCard(flashcard, old(editedData))
        case Err(message) => error == Some(message) && isEditing == old(isEditing) && edits == old(edits)
        case Ok(card) => edits == old(edits) + [card] && !isEditing && error == None
    {
      var outcome := SavedCard(flashcard, editedData);
      Conclude(outcome);
    }

    /** The state change of a save with a given outcome. */
    method Conclude(outcome: Result<GeneratedCard>)
      modifies this
      ensures editedData == old(editedData)
      ensures match outcome
        case Err(message) => error == Some(message) && isEditing == old(isEditing) && edits == old(edits)
        case Ok(card) => edits == old(edits) + [card] && !isEditing && error == None
    {
      match outcome {
        case Err(message) =>
          error := Some(message);
        case Ok(updated) =>
          edits := edits + [updated];
          isEditing := false;
          error := None;
      }
    }

    /** `handleCancel`: the buffer is rebuilt from the card. */
    method HandleCancel()
      modifies this
      ensures editedData == BufferOf(flashcard) && !isEditing && error == None && edits == old(edits)
    {
      editedData := BufferOf(flashcard);
      isEditing := false;
      error := None;
    }
  }
}
