/** `GenerateFlashcardsView`: the client controller of the triage screen.
    Its state `{loading, error, flashcards, sessionId}` and the selected
    file are fields of a class; the answers of `fetch` are parameters.
    A candidate is a `CardObject` so that `!==` is reference identity. */
module GenerateView {
  import opened Common
  import opened Types

  const MaxRetries: nat := 3
  const RetryDelay: nat := 1000

  /** A candidate as the view holds it: a parsed response object. */
  class CardObject {
    const card: GeneratedCard

    constructor (c: GeneratedCard)
      ensures card == c
    {
      card := c;
    }
  }

  /** One entry of the response's `errors`. */
  datatype ErrorEntry = ErrorEntry(errorCode: string, errorMessage: string)

  /** The fields of a response object the view reads. */
  datatype SessionData = SessionData(id: Option<int>, flashcards: Option<seq<CardObject>>, errors: Option<seq<ErrorEntry>>)

  /** What `response.json()` of an OK answer produced: something falsy or
      not an object, or an object. */
  datatype ResponseData = NotAnObject | Object(data: SessionData)

  /** The body of a failed answer: it did not parse, or it parsed and
      `message` is its message property when that is a string. */
  datatype ErrorBody = Unparsable | Parsed(message: Option<string>)

  /** One request: `fetch` (or reading its body) threw, the answer was
      not OK, or it was OK with a body. */
  datatype Attempt =
    | Threw(typeError: bool, message: string)
    | NotOk(status: int, body: ErrorBody)
    | Received(response: ResponseData)

  /** An attempt as `attemptGeneration`'s catch sees it. */
  datatype AttemptResult = Delivered(data: SessionData) | Failed(typeError: bool, message: string)

  const NoFileMessage: string := "Please select an image file"
  const TooLargeMessage: string := "File is too large. Maximum size is 10MB."
  const InvalidTypeMessage: string := "Invalid file type." + " Please select a JPEG or PNG image."
  const TooManyMessage: string := "Too many requests. Please try again later."
  const GenericMessage: string := "Failed to generate flashcards." + " Please try again."
  const InvalidResponseMessage: string := "Invalid response from server"

  predicate HasMessage(body: ErrorBody)
  {
    body.Parsed? && body.message.Some? && body.message.value != ""
  }

  /** The message of a non-OK answer, with the precedence of the
      conditional as written: a server message counts like status 413,
      and the server's own text is never shown. */
  function NotOkMessage(status: int, body: ErrorBody): string
  {
    if HasMessage(body) || status == 413 then TooLargeMessage
    else if status == 415 then InvalidTypeMessage
    else if status == 429 then TooManyMessage
    else GenericMessage
  }

  /** The four possible texts, chosen by server message and status. */
  lemma NotOkMessageSpec(status: int, body: ErrorBody)
    ensures var m := NotOkMessage(status, body);
      && (m == TooLargeMessage <==> HasMessage(body) || status == 413)
      && (m == InvalidTypeMessage <==> !HasMessage(body) && status == 415)
      && (m == TooManyMessage <==> !HasMessage(body) && status == 429)
      && (m == GenericMessage <==> !HasMessage(body) && status !in {413, 415, 429})
  {
  }

  function AttemptOf(a: Attempt): AttemptResult
  {
    match a
    case Threw(typeError, message) => Failed(typeError, message)
    case NotOk(status, body) => Failed(false, NotOkMessage(status, body))
    case Received(NotAnObject) => Failed(false, InvalidResponseMessage)
    case Received(Object(data)) => Delivered(data)
  }

  /** `attemptGeneration()` started with `retries` already made: the
      value it returns or the error it throws. */
  function Generation(env: nat -> Attempt, retries: nat): (r: AttemptResult)
    requires retries <= MaxRetries
    decreases MaxRetries - retries
  {
    match AttemptOf(env(retries))
    case Delivered(data) => Delivered(data)
    case Failed(typeError, message) =>
      if retries < MaxRetries && IsNetworkError(typeError, message) then Generation(env, retries + 1)
      else Failed(typeError, message)
  }

  /** The number of requests `attemptGeneration()` makes. */
  function Requests(env: nat -> Attempt, retries: nat): (n: nat)
    requires retries <= MaxRetries
    decreases MaxRetries - retries
  {
    match AttemptOf(env(retries))
    case Delivered(_) => 1
    case Failed(typeError, message) =>
      if retries < MaxRetries && IsNetworkError(typeError, message) then 1 + Requests(env, retries + 1) else 1
  }

  /** At most `MaxRetries` retries; an attempt that ended the run is the
      last request, and every request before it was a network failure. */
  lemma {:induction false} GenerationRuns(env: nat -> Attempt, retries: nat)
    requires retries <= MaxRetries
    ensures 1 <= Requests(env, retries) <= MaxRetries + 1 - retries
    ensures var last := retries + Requests(env, retries) - 1;
      && Generation(env, retries) == AttemptOf(env(last))
      && (forall k :: retries <= k < last ==>
            AttemptOf(env(k)).Failed? && IsNetworkError(AttemptOf(env(k)).typeError, AttemptOf(env(k)).message))
      && (Generation(env, retries).Failed? ==>
            last == MaxRetries || !IsNetworkError(Generation(env, retries).typeError, Generation(env, retries).message))
    decreases MaxRetries - retries
  {
    match AttemptOf(env(retries))
    case Delivered(_) =>
    case Failed(typeError, message) =>
      if retries < MaxRetries && IsNetworkError(typeError, message) {
        GenerationRuns(env, retries + 1);
      }
  }

  /** A non-OK answer and an invalid body are never retried: the run
      ends with that answer's message. */
  lemma NotOkIsFinal(env: nat -> Attempt, retries: nat)
    requires retries <= MaxRetries
    requires env(retries).NotOk? || env(retries) == Received(NotAnObject)
    ensures Requests(env, retries) == 1
    ensures Generation(env, retries) == AttemptOf(env(retries))
  {
    match env(retries)
    case NotOk(status, body) =>
      NotOkMessageSpec(status, body);
      NoNetworkInFixedTexts(NotOkMessage(status, body));
    case Received(_) =>
      NoNetworkInFixedTexts(InvalidResponseMessage);
  }

  /** A text without the letter 'k' cannot contain "network". */
  lemma NoNetworkWithoutK(m: string)
    requires 'k' !in m
    ensures !Includes(m, "network")
  {
    forall i | 0 <= i <= |m| - 7 ensures !OccursAt(m, "network", i) {
      assert m[i + 6] != 'k';
      assert m[i..i + 7][6] != 'k';
    }
  }

  lemma NoNetworkInFixedTexts(m: string)
    requires m in {TooLargeMessage, InvalidTypeMessage, TooManyMessage, GenericMessage, InvalidResponseMessage}
    ensures !Includes(m, "network")
  {
    if m == TooLargeMessage {
      NoKInTooLarge();
    } else if m == InvalidTypeMessage {
      NoKInInvalidType();
    } else if m == TooManyMessage {
      NoKInTooMany();
    } else if m == GenericMessage {
      NoKInGeneric();
    } else {
      NoKInInvalidResponse();
    }
    NoNetworkWithoutK(m);
  }

  lemma NoKInTooLarge()
    ensures 'k' !in TooLargeMessage
  {
  }

  lemma NoKInInvalidType()
    ensures 'k' !in InvalidTypeMessage
  {
    assert 'k' !in "Invalid file type.";
    assert 'k' !in " Please select a JPEG or PNG image.";
  }

  lemma NoKInTooMany()
    ensures 'k' !in TooManyMessage
  {
  }

  lemma NoKInGeneric()
    ensures 'k' !in GenericMessage
  {
    assert 'k' !in "Failed to generate flashcards.";
    assert 'k' !in " Please try again.";
  }

  lemma NoKInInvalidResponse()
    ensures 'k' !in InvalidResponseMessage
  {
  }

  /** A browser that is offline throughout gets four requests and then
      the last failure. */
  lemma AlwaysOffline(env: nat -> Attempt, message: string)
    requires Includes(message, "failed to fetch")
    requires forall k :: env(k) == Threw(true, message)
    ensures Requests(env, 0) == MaxRetries + 1
    ensures Generation(env, 0) == Failed(true, message)
  {
    assert IsNetworkError(true, message);
    assert Requests(env, 3) == 1;
    assert Requests(env, 2) == 2;
    assert Requests(env, 1) == 3;
  }

  /** `attemptGeneration()` run to its end: the result, how many requests
      were made and the delays slept between them. */
  method RequestSession(env: nat -> Attempt) returns (result: AttemptResult, requests: nat, delays: seq<nat>)
    ensures result == Generation(env, 0) && requests == Requests(env, 0)
    ensures 1 <= requests <= MaxRetries + 1
    ensures |delays| == requests - 1
    ensures forall k :: 0 <= k < |delays| ==> delays[k] == RetryDelay * (k + 1)
  {
    var retries: nat := 0;
    delays := [];
    while true
      invariant retries <= MaxRetries && |delays| == retries
      invariant forall k :: 0 <= k < retries ==> delays[k] == RetryDelay * (k + 1)
      invariant Generation(env, retries) == Generation(env, 0)
      invariant retries + Requests(env, retries) == Requests(env, 0)
      decreases MaxRetries - retries
    {
      var attempt := AttemptOf(env(retries));
      if attempt.Delivered? {
        result, requests := attempt, retries + 1;
        GenerationRuns(env, 0);
        return;
      }
      if retries < MaxRetries && IsNetworkError(attempt.typeError, attempt.message) {
        retries := retries + 1;
        delays := delays + [RetryDelay * retries];
      } else {
        result, requests := attempt, retries + 1;
        GenerationRuns(env, 0);
        return;
      }
    }
  }

  const ImageProcessingText: string := "Failed to process the image. Please try a different image."
  const AiServiceText: string := "AI service is temporarily unavailable. Please try again later."

  /** The text shown for one error of the response. */
  function ErrorText(e: ErrorEntry): string
  {
    if e.errorCode == "IMAGE_PROCESSING_ERROR" then ImageProcessingText
    else if e.errorCode == "AI_SERVICE_ERROR" then AiServiceText
    else e.errorMessage
  }

  /** `errors.map(...)`: one text per error, in order. */
  function ErrorTexts(errors: seq<ErrorEntry>): (r: seq<string>)
    ensures |r| == |errors|
    ensures forall i :: 0 <= i < |r| ==> r[i] == ErrorText(errors[i])
  {
    if errors == [] then [] else [ErrorText(errors[0])] + ErrorTexts(errors[1..])
  }

  /** Two codes have fixed texts; every other code shows the server's
      message verbatim. */
  lemma ErrorTextSpec(e: ErrorEntry)
    ensures e.errorCode == "IMAGE_PROCESSING_ERROR" ==> ErrorText(e) == ImageProcessingText
    ensures e.errorCode == "AI_SERVICE_ERROR" ==> ErrorText(e) == AiServiceText
    ensures e.errorCode !in {"IMAGE_PROCESSING_ERROR", "AI_SERVICE_ERROR"} ==> ErrorText(e) == e.errorMessage
  {
  }

  /** The single error the generation service reports shows its message. */
  lemma GenerationFailedShown(message: string)
    ensures Join(ErrorTexts([ErrorEntry("GENERATION_FAILED", message)]), ", ") == message
  {
  }

  /** `data.errors?.length` is truthy. */
  predicate HasErrors(data: SessionData)
  {
    data.errors.Some? && data.errors.value != []
  }

  datatype ActionType = Accepted | Edited | Rejected

  /** The answer to a flashcard-action request. */
  datatype ActionOutcome =
    | ActionThrew(message: string)
    | ActionNotOk(status: int, body: ErrorBody)
    | ActionOk

  const ActionDefaultMessage: string := "Failed to process flashcard action. Please try again."

  /** The message of a failed action: the server's message, else a text
      per status, else the default (also when the body does not parse). */
  function ActionErrorMessage(status: int, actionType: ActionType, body: ErrorBody): string
  {
    if body.Unparsable? then ActionDefaultMessage
    else if HasMessage(body) then body.message.value
    else if status == 400 then
      if actionType == Edited then "Invalid flashcard data. Please check your input and try again."
      else "Invalid request. Please try again."
    else if status == 404 then "Session not found. Please refresh the page and try again."
    else if status == 429 then "Too many requests. Please wait a moment and try again."
    else if status == 500 then "Server error. Please try again later."
    else ActionDefaultMessage
  }

  /** A server message always wins; without one the status decides, and
      only 400 depends on the action. */
  lemma ActionErrorMessageSpec(status: int, actionType: ActionType, body: ErrorBody)
    ensures HasMessage(body) ==> ActionErrorMessage(status, actionType, body) == body.message.value
    ensures body.Unparsable? || (!HasMessage(body) && status !in {400, 404, 429, 500})
        ==> ActionErrorMessage(status, actionType, body) == ActionDefaultMessage
    ensures status != 400 ==> ActionErrorMessage(status, Accepted, body) == ActionErrorMessage(status, Edited, body)
    ensures body.Parsed? && !HasMessage(body) && status == 400
        ==> ActionErrorMessage(status, Accepted, body) != ActionErrorMessage(status, Edited, body)
  {
  }

  datatype Toast = ErrorToast(message: string) | SuccessToast(message: string)

  function SuccessText(count: nat): string
  {
    "Successfully generated " + NatToString(count) + " flashcards"
  }

  function ActionName(a: ActionType): string
  {
    match a
    case Accepted => "accepted"
    case Edited => "edited"
    case Rejected => "rejected"
  }

  /** The candidate a successful action removes. */
  function ToRemove(flashcard: CardObject, actionType: ActionType, original: Option<CardObject>): CardObject
  {
    if actionType == Edited && original.Some? then original.value else flashcard
  }

  /** Removing the acted-on candidate drops exactly the references equal
      to it and keeps the others in order. */
  lemma {:induction false} RemovalKeepsOthers(cards: seq<CardObject>, target: CardObject)
    ensures forall c :: c in Without(cards, target) <==> c in cards && c != target
    ensures cards == Without(cards, target) <==> target !in cards
  {
    if cards != [] {
      RemovalKeepsOthers(cards[1..], target);
      if cards[0] == target {
        assert target in cards;
      } else {
        assert Without(cards, target) == [cards[0]] + Without(cards[1..], target);
        assert cards == [cards[0]] + cards[1..];
      }
    }
  }

  class FlashcardsView {
    var selectedFile: Option<FileInfo>
    var loading: bool
    var error: Option<string>
    var flashcards: seq<CardObject>
    var sessionId: Option<string>
    var toasts: seq<Toast>

    constructor ()
      ensures selectedFile == None && !loading && error == None && flashcards == [] && sessionId == None
      ensures toasts == []
    {
      selectedFile, loading, error, flashcards, sessionId, toasts := None, false, None, [], None, [];
    }

    /** `handleFileSelect`: a new selection clears a shown error. */
    method HandleFileSelect(file: Option<FileInfo>)
      modifies this
      ensures selectedFile == file
      ensures error == (if old(error).Some? && old(error).value != "" then None else old(error))
      ensures loading == old(loading) && flashcards == old(flashcards) && sessionId == old(sessionId)
      ensures toasts == old(toasts)
    {
      selectedFile := file;
      match error {
        case Some(e) => if e != "" { error := None; }
        case None =>
      }
    }

    /** `handleGenerate`; `requests` is the number of POSTs sent and
        `delays` the pauses between them. */
    method HandleGenerate(env: nat -> Attempt) returns (requests: nat, delays: seq<nat>)
      modifies this
      ensures selectedFile == old(selectedFile)
      ensures old(selectedFile).None? ==>
        && requests == 0 && delays == []
        && error == Some(NoFileMessage)
        && loading == old(loading) && flashcards == old(flashcards) && sessionId == old(sessionId)
        && toasts == old(toasts)
      ensures old(selectedFile).Some? ==>
        && requests == Requests(env, 0) && |delays| == requests - 1 && !loading
        && match Generation(env, 0)
           case Failed(_, message) =>
             error == Some(message) && flashcards == old(flashcards) && sessionId == old(sessionId)
             && toasts == old(toasts) + [ErrorToast(message)]
           case Delivered(data) =>
             if HasErrors(data) then
               error == Some(Join(ErrorTexts(data.errors.value), ", "))
               && flashcards == old(flashcards) && sessionId == old(sessionId) && toasts == old(toasts)
             else
               error == None
               && sessionId == (if data.id.Some? then Some(IntToString(data.id.value)) else None)
               && flashcards == (if data.flashcards.Some? then data.flashcards.value else [])
               && toasts == old(toasts) + [SuccessToast(SuccessText(|flashcards|))]
    {
      if selectedFile.None? {
        error := Some(NoFileMessage);
        requests, delays := 0, [];
        return;
      }
      loading, error := true, None;
      var result;
      result, requests, delays := RequestSession(env);
      match result {
        case Failed(_, message) =>
          loading, error := false, Some(message);
          toasts := toasts + [ErrorToast(message)];
        case Delivered(data) =>
          if HasErrors(data) {
            loading, error := false, Some(Join(ErrorTexts(data.errors.value), ", "));
          } else {
            loading := false;
            sessionId := match data.id { case Some(id) => Some(IntToString(id)) case None => None };
            flashcards := match data.flashcards { case Some(cards) => cards case None => [] };
            error := None;
            toasts := toasts + [SuccessToast(SuccessText(|flashcards|))];
          }
      }
    }

    /** `handleFlashcardAction`; `sent` tells whether a request went out. */
    method HandleFlashcardAction(flashcard: CardObject, actionType: ActionType, original: Option<CardObject>,
                                 outcome: ActionOutcome) returns (sent: bool)
      modifies this
      ensures sent <==> old(sessionId).Some? && old(sessionId).value != ""
      ensures selectedFile == old(selectedFile) && loading == old(loading) && sessionId == old(sessionId)
      ensures !sent ==> flashcards == old(flashcards) && error == old(error) && toasts == old(toasts)
      ensures sent && outcome.ActionOk? ==>
        && flashcards == Without(old(flashcards), ToRemove(flashcard, actionType, original))
        && error == old(error)
        && toasts == old(toasts) + [SuccessToast("Flashcard " + ActionName(actionType) + " successfully")]
      ensures sent && outcome.ActionThrew? ==>
        flashcards == old(flashcards) && error == Some(outcome.message)
        && toasts == old(toasts) + [ErrorToast(outcome.message)]
      ensures sent && outcome.ActionNotOk? ==>
        var m := ActionErrorMessage(outcome.status, actionType, outcome.body);
        flashcards == old(flashcards) && error == Some(m) && toasts == old(toasts) + [ErrorToast(m)]
    {
      sent := false;
      match sessionId {
        case None => return;
        case Some(id) => if id == "" { return; }
      }
      sent := true;
      match outcome {
        case ActionThrew(message) =>
          error := Some(message);
          toasts := toasts + [ErrorToast(message)];
        case ActionNotOk(status, body) =>
          var m := ActionErrorMessage(status, actionType, body);
          error := Some(m);
          toasts := toasts + [ErrorToast(m)];
        case ActionOk =>
          var toRemove := ToRemove(flashcard, actionType, original);
          flashcards := Without(flashcards, toRemove);
          toasts := toasts + [SuccessToast("Flashcard " + ActionName(actionType) + " successfully")];
      }
    }
  }
}
