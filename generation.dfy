/** `GenerationService`: the prompt sent to the gateway, the shaping of
    the model's JSON answer into candidate cards, and the result object of
    `generateFlashcardsFromImage`, which reports every failure as one
    `GENERATION_FAILED` error instead of throwing.

    `JSON.parse`, the gateway call, the database insert and the clock are
    parameters of the model. */
module Generation {
  import opened Common
  import OpenRouter

  /** `GeneratedFlashcardDTO`, whose fields the service copies without
      checking their types. */
  datatype Candidate = Candidate(front: Json, back: Json, phonetic: Json, tags: seq<Json>, source: string)

  const ParseFailure: string := "Failed to parse AI response"

  /** `Array.isArray(t) ? t.slice(0, 4) : []` */
  function CandidateTags(t: Json): (r: seq<Json>)
    ensures |r| <= 4
    ensures t.JArray? ==> r == t.items[..if |t.items| < 4 then |t.items| else 4]
    ensures !t.JArray? ==> r == []
  {
    if t.JArray? then (if |t.items| <= 4 then t.items else t.items[..4]) else []
  }

  /** The mapping callback for one element of the parsed array; `None`
      when it is `null` or `undefined`, where reading `card.front` throws. */
  function ShapeCard(card: Json): Option<Candidate>
  {
    if card.JNull? || card.JUndefined? then None
    else
      var p := Get(card, "phonetic");
      Some(Candidate(Get(card, "front"), Get(card, "back"), if Truthy(p) then p else JNull,
                     CandidateTags(Get(card, "tags")), "ai"))
  }

  predicate Nullish(j: Json)
  {
    j.JNull? || j.JUndefined?
  }

  function ShapeCards(items: seq<Json>): (r: Option<seq<Candidate>>)
  {
    if items == [] then Some([])
    else
      var c := ShapeCard(items[0]);
      var rest := ShapeCards(items[1..]);
      if c.None? || rest.None? then None else Some([c.value] + rest.value)
  }

  /** `parseAIResponse(response)`, given what `JSON.parse(response)` gave
      (`None` when it threw). */
  function ParseAIResponse(parsed: Option<Json>): Result<seq<Candidate>>
  {
    if parsed.None? || !parsed.value.JArray? then Err(ParseFailure)
    else
      var cards := ShapeCards(parsed.value.items);
      if cards.None? then Err(ParseFailure) else Ok(cards.value)
  }

  lemma {:induction false} ShapeCardsSpec(items: seq<Json>)
    ensures ShapeCards(items).Some? <==> forall i :: 0 <= i < |items| ==> !Nullish(items[i])
    ensures ShapeCards(items).Some? ==>
      |ShapeCards(items).value| == |items| &&
      forall i :: 0 <= i < |items| ==> Some(ShapeCards(items).value[i]) == ShapeCard(items[i])
  {
    if items != [] {
      ShapeCardsSpec(items[1..]);
      if ShapeCards(items).Some? {
        var r := ShapeCards(items).value;
        assert r == [ShapeCard(items[0]).value] + ShapeCards(items[1..]).value;
        forall i | 0 <= i < |items| ensures Some(r[i]) == ShapeCard(items[i]) {
          if i > 0 {
            assert items[i] == items[1..][i - 1];
          }
        }
      } else if ShapeCard(items[0]).Some? {
        var k :| 0 <= k < |items[1..]| && Nullish(items[1..][k]);
        assert Nullish(items[k + 1]);
      }
    }
  }

  /** The parse succeeds exactly when the value is an array with no `null`
      or `undefined` element; every other input, a failed `JSON.parse`
      included, gives "Failed to parse AI response". */
  lemma ParseSucceedsIff(parsed: Option<Json>)
    ensures ParseAIResponse(parsed).Ok? <==>
      parsed.Some? && parsed.value.JArray? && forall i :: 0 <= i < |parsed.value.items| ==> !Nullish(parsed.value.items[i])
    ensures ParseAIResponse(parsed).Err? ==> ParseAIResponse(parsed).message == ParseFailure
  {
    if parsed.Some? && parsed.value.JArray? {
      ShapeCardsSpec(parsed.value.items);
    }
  }

  /** A successful parse has one candidate per array element, in order:
      front and back copied, a falsy phonetic replaced by `null`, at most
      the first four tags when `tags` is an array and none otherwise, and
      source "ai". */
  lemma ParsedCandidates(items: seq<Json>)
    requires ParseAIResponse(Some(JArray(items))).Ok?
    ensures var cards := ParseAIResponse(Some(JArray(items))).value;
      && |cards| == |items|
      && forall i :: 0 <= i < |cards| ==>
           && cards[i].front == Get(items[i], "front")
           && cards[i].back == Get(items[i], "back")
           && cards[i].phonetic == (if Truthy(Get(items[i], "phonetic")) then Get(items[i], "phonetic") else JNull)
           && cards[i].tags == (if Get(items[i], "tags").JArray?
                                then var t := Get(items[i], "tags").items; t[..if |t| < 4 then |t| else 4]
                                else [])
           && |cards[i].tags| <= 4
           && cards[i].source == "ai"
  {
    ShapeCardsSpec(items);
  }

  // ---------------------------------------------------------------- prompt

  const SystemPrompt: string :=
    "You are a specialized AI trained to extract text from English-Polish textbook images and create high-quality flashcards. You can recognize English words/phrases, their phonetic transcriptions, and Polish translations directly from textbook pages."

  const UserPrompt: string :=
    "Analyze this English-Polish textbook image:\n"
    + "1. First, extract all visible text including English words/phrases, phonetic transcriptions, and Polish translations\n"
    + "2. Identify lesson numbers, sections, and any organizational structure\n"
    + "3. Create flashcards with:\n"
    + "   - front: English word/phrase\n"
    + "   - back: Polish translation\n"
    + "   - phonetic: Phonetic transcription (extract from image if available, if not try to generate english phonetic transcription)\n"
    + "   - tags: Up to 4 relevant tags only in Polish language based on context (lesson number, category, etc.) - Lesson 6.1 is Lekcja 6.1 in Polish\n"
    + "\n"
    + "Format your response as a JSON array of flashcard objects:\n"
    + "[{\n"
    + "  \"front\": \"English word/phrase\",\n"
    + "  \"back\": \"Polish translation\",\n"
    + "  \"phonetic\": \"Phonetic transcription if available\",\n"
    + "  \"tags\": [\"Tag1\", \"Tag2\", \"Tag3\", \"Tag4\"]\n"
    + "}]\n"
    + "Return only the JSON array, nothing else.\n"
    + "\n"
    + "Extract ALL vocabulary entries from the image, not just a few examples."

  /** The image as the gateway receives it: mime type and the base64 text
      of the file's bytes (the encoding itself is not modelled). */
  datatype ImageFile = ImageFile(mimeType: string, base64: string)

  /** `imageToBase64(image)`: a data URL. */
  function ImageToBase64(image: ImageFile): string
  {
    "data:" + image.mimeType + ";base64," + image.base64
  }

  /** The data URL splits on ';' into "data:" + mime and "base64," + the
      encoding whenever the mime type has no ';' (the base64 alphabet has
      none), so both parts can be recovered. */
  lemma DataUrlParts(image: ImageFile)
    requires ';' !in image.mimeType && ';' !in image.base64
    ensures StartsWith(ImageToBase64(image), "data:")
    ensures Split(ImageToBase64(image), ';') == ["data:" + image.mimeType, "base64," + image.base64]
  {
    var parts := ["data:" + image.mimeType, "base64," + image.base64];
    assert ';' !in parts[0] && ';' !in parts[1];
    assert Join(parts, ";") == ImageToBase64(image);
    SplitJoin(parts, ';');
  }

  /** `buildPrompt(imageBase64)` */
  function BuildPrompt(imageUrl: string): (r: seq<OpenRouter.Message>)
  {
    [ OpenRouter.Message(OpenRouter.SystemRole, OpenRouter.TextContent(SystemPrompt)),
      OpenRouter.Message(OpenRouter.UserRole,
        OpenRouter.Parts([OpenRouter.TextPart(UserPrompt), OpenRouter.ImageUrlPart(imageUrl)])) ]
  }

  /** The prompt holds exactly two messages: the system text, then a user
      message whose parts are the instructions and the image, in that
      order; it passes the gateway's message check whenever the image URL
      does. */
  lemma PromptShape(image: ImageFile, isUrl: string -> bool)
    ensures var p := BuildPrompt(ImageToBase64(image));
      && |p| == 2
      && p[0].role == OpenRouter.SystemRole && p[0].content == OpenRouter.TextContent(SystemPrompt)
      && p[1].role == OpenRouter.UserRole && p[1].content.Parts?
      && |p[1].content.parts| == 2
      && p[1].content.parts[0] == OpenRouter.TextPart(UserPrompt)
      && p[1].content.parts[1] == OpenRouter.ImageUrlPart(ImageToBase64(image))
      && ((forall i :: 0 <= i < |p| ==> OpenRouter.ValidMessage(p[i], isUrl)) <==> isUrl(ImageToBase64(image)))
  {
    var p := BuildPrompt(ImageToBase64(image));
    assert OpenRouter.ValidMessage(p[1], isUrl) <==> isUrl(ImageToBase64(image)) by {
      assert p[1].content.parts[1].ImageUrlPart?;
    }
  }

  /** The `response_format` the service asks for. */
  const FlashcardFormat: OpenRouter.ResponseFormat := OpenRouter.ResponseFormat("json_schema", "flashcard_response")

  // --------------------------------------------------------------- result

  const GenerationFailed: string := "GENERATION_FAILED"

  /** The `TypeError` thrown by `aiResponse.choices[0].message` when the
      gateway returned no choice. */
  const NoChoiceMessage: string := "Cannot read properties of undefined (reading 'message')"

  datatype GenerationError = GenerationError(id: int, errorCode: string, errorMessage: string)

  /** `GenerationSessionDTO`: `None` stands for an absent field or a
      `null` id. */
  datatype GenerationSession = GenerationSession(
    id: Option<int>,
    flashcards: Option<seq<Candidate>>,
    errors: Option<seq<GenerationError>>,
    createdAt: string)

  /** The row `saveGenerationSession` inserts. */
  datatype SessionInsert = SessionInsert(userId: string, model: string, generationDuration: int)

  /** The row `saveGenerationError` inserts. */
  datatype ErrorInsert = ErrorInsert(sessionId: int, errorCode: string, errorMessage: string)

  /** The first failure of the `try` block, if any: the gateway's error,
      a missing choice, or the parse error. `None` means the AI answer
      was turned into candidates. */
  function GenerationStepError(out: OpenRouter.Outcome, jsonParse: string -> Option<Json>): Option<string>
  {
    if out.Thrown? then Some(out.error.Message())
    else if out.response.choices == [] then Some(NoChoiceMessage)
    else
      var parsed := ParseAIResponse(jsonParse(out.response.choices[0].content));
      if parsed.Err? then Some(parsed.message) else None
  }

  /** `generateFlashcardsFromImage(userId, image)`. `gateway` is the
      outcome of `sendRequest` for the given messages and format,
      `saveSession` the id the insert returns (`None` when it fails),
      `modelName` the opaque `aiResponse.model`, `startTime`/`endTime` the
      two clock readings and `now` the ISO time stamp. It never throws:
      every failure becomes a result with `id` null, no flashcards and one
      `GENERATION_FAILED` error carrying the failure's message; success
      carries the saved id and the parsed candidates and no errors. */
  method GenerateFlashcardsFromImage(
    userId: string, image: ImageFile,
    gateway: (seq<OpenRouter.Message>, Option<OpenRouter.ResponseFormat>) -> OpenRouter.Outcome,
    jsonParse: string -> Option<Json>, modelName: string,
    saveSession: SessionInsert -> Option<int>,
    startTime: int, endTime: int, now: string)
    returns (result: GenerationSession, sessionRow: Option<SessionInsert>, errorRow: Option<ErrorInsert>)
    ensures var out := gateway(BuildPrompt(ImageToBase64(image)), Some(FlashcardFormat));
      var stepError := GenerationStepError(out, jsonParse);
      && result.createdAt == now
      && errorRow == None
      && (result.errors.None? <==> result.flashcards.Some?)
      && (sessionRow.Some? <==> stepError.None?)
      && (stepError.None? ==> sessionRow == Some(SessionInsert(userId, modelName, endTime - startTime)))
      && (result.errors.None? <==> stepError.None? && saveSession(sessionRow.value).Some?)
      && (result.errors.None? ==>
            && result.id == saveSession(sessionRow.value)
            && result.flashcards == Some(ParseAIResponse(jsonParse(out.response.choices[0].content)).value))
      && (result.errors.Some? ==>
            && result.id == None
            && result.errors.value == [GenerationError(1, GenerationFailed,
                 if stepError.Some? then stepError.value else SaveFailure)])
  {
    var sessionId: Option<int> := None;
    sessionRow, errorRow := None, None;
    var failure: string;
    var imageBase64 := ImageToBase64(image);
    var messages := BuildPrompt(imageBase64);
    var aiResponse := gateway(messages, Some(FlashcardFormat));
    if aiResponse.Thrown? {
      failure := aiResponse.error.Message();
    } else if aiResponse.response.choices == [] {
      failure := NoChoiceMessage;
    } else {
      var flashcards := ParseAIResponse(jsonParse(aiResponse.response.choices[0].content));
      if flashcards.Err? {
        failure := flashcards.message;
      } else {
        var generationDuration := endTime - startTime;
        sessionRow := Some(SessionInsert(userId, modelName, generationDuration));
        var saved := saveSession(sessionRow.value);
        if saved.None? {
          failure := SaveFailure;
        } else {
          sessionId := saved;
          result := GenerationSession(sessionId, Some(flashcards.value), None, now);
          return;
        }
      }
    }
    // The catch block: the session id is still unset, so no error row
    // is written.
    match sessionId {
      case Some(id) =>
        if id != 0 {
          errorRow := Some(ErrorInsert(id, GenerationFailed, failure));
        }
      case None =>
    }
    result := GenerationSession(sessionId, None, Some([GenerationError(1, GenerationFailed, failure)]), now);
  }

  const SaveFailure: string := "Failed to save generation session"
}
