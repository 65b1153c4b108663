# smart-10x-cards in Dafny

This project is a Dafny model of the core of smart-10x-cards, a flashcard
application. A user uploads a photo of an English–Polish textbook page.
The server sends it to an AI model through the OpenRouter gateway and
returns flashcard candidates. The user accepts, edits or rejects each
candidate; every decision is logged against the generation session. On
the dashboard the user lists, filters by tag, creates, edits and deletes
saved cards.

The model has one Dafny module per source file of the core, plus three
shared modules:

- `Common`: option and result types, a JSON value, and the JavaScript
  string operations the code relies on (`trim`, `split`, `join`,
  `includes`, `startsWith`, `parseInt`).
- `TagInput`: the comma-separated tag field and the submit check that
  several forms share.
- `Types`: the DTOs and commands that the services, the endpoints and
  the views exchange.

Services and endpoints are modelled as functions over explicit inputs.
The outcome of `fetch`, the answers of Supabase, the parsed JSON and the
clock are all parameters. The gateway's retry loop is a `while` loop in
a method. The flashcard service is a class whose fields are the
`flashcards` and `tags` tables. Each React component is a class whose
fields are its state hooks; each handler is a method proved against that
state.

## Model

| member | source | states |
|---|---|---|
| OpenRouter.ApiErrorRetryable | src/lib/services/openrouter.service.ts:109-114 | an API error is retryable exactly when its status is at least 500 or is 429; it keeps the status code |
| OpenRouter.GatewayStatusesRetriedWithDefaultText | src/lib/services/openrouter.service.ts:249-264 | 502 and 503 get the generic "OpenRouter API error" text and are still retried |
| OpenRouter.ApiErrorMessage | src/lib/services/openrouter.service.ts:245-271 | the message is the status text, followed by " - " and the body exactly when the body is non-empty; an unreadable body adds nothing |
| OpenRouter.NewService | src/lib/services/openrouter.service.ts:48-64 | the constructor succeeds exactly for a valid configuration, and the service keeps that configuration |
| OpenRouter.ServiceHeaders | src/lib/services/openrouter.service.ts:122-137 | the headers always hold the JSON content type and the bearer key, and hold the referer and title exactly when they are configured |
| OpenRouter.ConfigParams | src/lib/services/openrouter.service.ts:8-12 | the configured parameters are the passed-through extra keys plus `maxTokens` and `temperature`, which the configuration always carries |
| OpenRouter.ClampTokens | src/lib/services/openrouter.service.ts:318-321 | the token limit is clamped into 1..4096 and left alone inside that range |
| OpenRouter.ClampTemperature | src/lib/services/openrouter.service.ts:323-326 | the temperature is clamped into 0..1 and left alone inside that range |
| OpenRouter.NormalizedParameters | src/lib/services/openrouter.service.ts:296-326 | call parameters override configured ones; only `maxTokens` and `temperature` are changed, each only by its clamp and only when it is a number |
| OpenRouter.PayloadContents | src/lib/services/openrouter.service.ts:287-313 | for valid messages the payload carries the model, the messages, the normalised parameters (always a temperature: the configured one unless the call overrides it), and the response format exactly when one is given |
| OpenRouter.AssembleSpec | src/lib/services/openrouter.service.ts:300-313 | in the payload literal a parameter overrides the model name and the messages, every other parameter is kept, and `response_format` is present exactly when a format is given or a parameter of that name exists |
| OpenRouter.BadUrlFailsBuild | src/lib/services/openrouter.service.ts:66-82 | one image part whose URL is not a URL makes the payload build fail |
| OpenRouter.RetryDelayBounds | src/lib/services/openrouter.service.ts:274-281 | a delay lies between the exponential delay and the cap, and before the last attempt it is the exponential delay plus the jitter |
| OpenRouter.SendFrom | src/lib/services/openrouter.service.ts:204-240 | a run from attempt k ends after more than k and at most 3 attempts |
| OpenRouter.SendRequest | src/lib/services/openrouter.service.ts:196-243 | the loop gives the result of the reference run `SendFrom`; 1 to 3 attempts; one sleep fewer than attempts, each the backoff plus its jitter; no fetch when the payload cannot be built |
| OpenRouter.SendFromSkips | src/lib/services/openrouter.service.ts:219-231 | attempts that were all retried can be skipped when the run is evaluated |
| OpenRouter.RunOutcome | src/lib/services/openrouter.service.ts:213-238 | after retried attempts, a success is returned, a terminal gateway error is re-thrown unchanged, and the last retryable failure is wrapped |
| OpenRouter.ExhaustedError | src/lib/services/openrouter.service.ts:233-238 | the final error is not retryable, has no status, and says "Failed to send request after 3 attempts: " followed by the last message |
| OpenRouter.AlwaysServerError | src/lib/services/openrouter.service.ts:204-240 | an endpoint that always answers 500 gets three attempts and then the wrapped error |
| OpenRouter.ExhaustedServerErrorMessage | src/lib/services/openrouter.service.ts:234-236 | the wrapped text for a 500 answer, written out |
| OpenRouter.UnauthorizedStopsAtOnce | src/lib/services/openrouter.service.ts:222-224 | a 401 ends the loop after one attempt, with the API error itself |
| OpenRouter.RecoversOnThirdAttempt | src/lib/services/openrouter.service.ts:204-231 | two network failures and then a valid answer return that answer after three attempts |
| OpenRouter.InvalidFormatIsRetried | src/lib/services/openrouter.service.ts:331-338 | a body that does not match the response schema is retried like a network failure |
| OpenRouter.BuildFailureIsRetried | src/lib/services/openrouter.service.ts:206-232 | a payload that fails validation is retried until the attempts run out, without any fetch |
| Generation.CandidateTags | src/lib/services/generation.service.ts:72 | the tags of a candidate are the first four of an array, and empty for anything else |
| Generation.ShapeCardsSpec | src/lib/services/generation.service.ts:68-74 | shaping succeeds exactly when no element is null; it gives one candidate per element, in order |
| Generation.ParseSucceedsIff | src/lib/services/generation.service.ts:61-79 | the parse succeeds exactly for an array without null elements; every failure is "Failed to parse AI response" |
| Generation.ParsedCandidates | src/lib/services/generation.service.ts:68-74 | each candidate copies front and back, turns a falsy phonetic into null, keeps at most four tags and has source "ai" |
| Generation.DataUrlParts | src/lib/services/generation.service.ts:11-16 | the image becomes a data URL that splits into "data:" plus the mime type and "base64," plus the content |
| Generation.PromptShape | src/lib/services/generation.service.ts:18-59 | the prompt is a system message and then a user message holding the instruction text and the image URL; it passes message validation whenever the data URL is a URL |
| Generation.GenerateFlashcardsFromImage | src/lib/services/generation.service.ts:112-178 | success carries the saved session id and the parsed candidates; every failure gives a null id and one GENERATION_FAILED error with the failure's message; no error row is ever written |
| ImageValidation.SizeTestIsIntegral | src/lib/services/image-validation.service.ts:16-17 | the megabyte test is the same as size > 10485760 bytes |
| ImageValidation.ErrorTexts | src/lib/services/image-validation.service.ts:20-28 | the two messages, written out |
| ImageValidation.ValidateImageSpec | src/lib/services/image-validation.service.ts:13-32 | a file is valid exactly when it is at most 10 MiB and JPEG or PNG; size is reported before format |
| UploadSection.ValidateFileSpec | src/components/UploadSection.tsx:21-39 | no file is invalid and has no message; a file is valid exactly when its type is allowed and it is at most 10 MiB; type is checked first |
| UploadSection.SizeBoundary | src/components/UploadSection.tsx:31-36 | exactly 10 MiB is accepted and one byte more is refused |
| UploadSection.Upload.HandleFileChange | src/components/UploadSection.tsx:41-61 | a valid file is selected with a success toast; an invalid one clears the selection, empties the input and toasts its message when it has one |
| UploadSection.Upload.HandleDrop | src/components/UploadSection.tsx:83-106 | a valid drop selects the file; an invalid drop leaves the selection as it was |
| GenerationSessionsApi.PostStatus | src/pages/api/generation-sessions.ts:22-74 | 400 for a missing image or failed checks, 201 with the service's result, 500 when reading the form or generating throws |
| GenerationSessionsApi.BothIssuesReported | src/pages/api/generation-sessions.ts:11-20 | a file with a bad type and a bad size reports both issues, type first |
| FlashcardService.TagsOf | src/lib/services/flashcard.service.ts:88 | a card never has more tags than there are tag rows; which tags, in table order, is stated by the lemmas on `TagsOf` |
| FlashcardService.ToDtos | src/lib/services/flashcard.service.ts:79-89 | one DTO per row, in order |
| FlashcardService.FindCard | src/lib/services/flashcard.service.ts:101-106 | the card found has that id and that owner, and one is found whenever such a row exists |
| FlashcardService.MatchingTagRows | src/lib/services/flashcard.service.ts:33-36 | the matching rows are the user's tag rows whose tag is in the filter |
| FlashcardService.QueryCards | src/lib/services/flashcard.service.ts:58-66 | the selected rows are the user's rows, restricted to the given ids when there are any, in table order |
| FlashcardService.Range | src/lib/services/flashcard.service.ts:26-69 | the page holds `limit` rows from `offset` on, cut at the end of the table |
| FlashcardService.TagRowsFor | src/lib/services/flashcard.service.ts:155-158 | one tag row per tag, each pointing at the card |
| FlashcardService.RemoveTagsOf | src/lib/services/flashcard.service.ts:199 | all rows of that card go, every other row stays |
| FlashcardService.RemoveCard | src/lib/services/flashcard.service.ts:234 | the table never grows (also the rollback delete at line 164); `RemoveCardProps` states which ids remain |
| FlashcardService.UpdateRows | src/lib/services/flashcard.service.ts:184-192 | only the owned row with that id gets the new front, back and phonetic |
| FlashcardService.TagsOfAppend | src/lib/services/flashcard.service.ts:88 | the tags of a card over two appended tables are its tags in the first, then in the second |
| FlashcardService.TagsOfRows | src/lib/services/flashcard.service.ts:155-158 | the rows inserted for a card carry exactly its tags, and no tags of another card |
| FlashcardService.TagsOfAbsent | src/lib/services/flashcard.service.ts:88 | a card with no tag rows has no tags |
| FlashcardService.TagsOfRemoved | src/lib/services/flashcard.service.ts:199 | removing a card's tag rows empties its tags and keeps those of other cards |
| FlashcardService.TagReplacement | src/lib/services/flashcard.service.ts:198-217 | replacing a card's tag rows makes its tags exactly the new ones and keeps the tags of every other card |
| FlashcardService.FlashcardStore.GetFlashcard | src/lib/services/flashcard.service.ts:100-132 | a lookup fault is an error; otherwise the result is the DTO of the user's card with that id, or null when there is none |
| FlashcardService.FlashcardStore.ListFlashcards | src/lib/services/flashcard.service.ts:20-95 | a successful page holds at most `limit` cards; `ListSpec` states its contents |
| FlashcardService.FlashcardStore.ListWithoutMatches | src/lib/services/flashcard.service.ts:43-46 | a non-empty filter that matches no tag row gives no cards and total 0 without the card query |
| FlashcardService.FlashcardStore.ListSpec | src/lib/services/flashcard.service.ts:26-94 | a successful list is the page of the selected rows from (page-1)*limit on; it fails only on a fault of a query it makes |
| FlashcardService.FlashcardStore.ListPageSpec | src/lib/services/flashcard.service.ts:69-94 | the page holds the DTOs of at most `limit` rows from the offset on, and the total is the count before pagination |
| FlashcardService.FlashcardStore.SelectedAnyOf | src/lib/services/flashcard.service.ts:30-66 | with a filter, a user's card is selected exactly when one of its tags is in the filter |
| FlashcardService.MatchingIdsSpec | src/lib/services/flashcard.service.ts:33-48 | an id comes out of the tag query exactly when it is the user's and one of its tag rows carries a requested tag |
| FlashcardService.QueryCardsMember | src/lib/services/flashcard.service.ts:58-65 | a row is selected exactly when it belongs to the user and, when ids are given, its id is one of them |
| FlashcardService.FlashcardStore.CreateFlashcard | src/lib/services/flashcard.service.ts:137-171 | a manual card with a fresh id and the command's fields and tags is stored; a failed tag insert removes the card again; a failed read-back raises after the rows are written; the tables stay consistent |
| FlashcardService.CreateKeepsValid | src/lib/services/flashcard.service.ts:137-171 | inserting a card under the next id, with or without its tag rows, and only moving the next id on, all keep ids distinct and below the next id and every tag row attached to a card |
| FlashcardService.FlashcardStore.UpdateFlashcard | src/lib/services/flashcard.service.ts:176-221 | a missing or foreign card is refused and nothing changes; otherwise the fields are written and the tag rows replaced step by step, with each fault stopping there, and a failed read-back raises after all writes |
| FlashcardService.UpdateKeepsValid | src/lib/services/flashcard.service.ts:176-221 | updating an existing card's row, deleting its tag rows and inserting the new ones each leave the store consistent |
| FlashcardService.FlashcardStore.DeleteFlashcard | src/lib/services/flashcard.service.ts:226-239 | a missing or foreign card is refused; otherwise the card and all its tag rows go and nothing else changes |
| FlashcardService.QueryNoIds | src/lib/services/flashcard.service.ts:58-61 | an empty id filter selects no card |
| FlashcardService.CardIdsAppend | src/lib/services/flashcard.service.ts:138-148 | inserting a card adds exactly its id, and keeps ids distinct when the id is fresh |
| FlashcardService.RemoveFreshCard | src/lib/services/flashcard.service.ts:164 | deleting the card just inserted restores the table |
| FlashcardService.TagsOfFresh | src/lib/services/flashcard.service.ts:154-160 | a fresh card's tags are exactly the tags inserted for it |
| FlashcardService.UpdateKeepsIds | src/lib/services/flashcard.service.ts:184-192 | an update changes no id and keeps ids distinct |
| FlashcardService.RemoveCardProps | src/lib/services/flashcard.service.ts:234 | deleting invents no id, keeps every other id and keeps ids distinct |
| FlashcardService.RemoveOwnedCard | src/lib/services/flashcard.service.ts:228-234 | after the delete the user has no card with that id |
| FlashcardsApi.JsNumberOfDigits | src/pages/api/flashcards/index.ts:25-26 | the decimal text of a number coerces back to that number |
| FlashcardsApi.ListQuerySpec | src/pages/api/flashcards/index.ts:24-68 | absent page and limit default to 1 and 20; present ones must be positive integers and the limit at most 100; a non-empty `tags` value is split on ',' |
| FlashcardsApi.TagsOnlyQuery | src/pages/api/flashcards/index.ts:64-68 | a query with only `tags` uses the defaults and filters by the split value |
| FlashcardsApi.ZeroPageRefused | src/pages/api/flashcards/index.ts:25 | page "0" is refused |
| FlashcardsApi.LimitAboveMaximumRefused | src/pages/api/flashcards/index.ts:26 | limit "101" is refused |
| FlashcardsApi.LimitAtMaximumAccepted | src/pages/api/flashcards/index.ts:26 | limit "100" is accepted with the default page |
| FlashcardsApi.NonNumericLimit | src/pages/api/flashcards/index.ts:26 | a limit that is not a number is refused |
| FlashcardsApi.GetListStatus | src/pages/api/flashcards/index.ts:58-90 | 200 with the service's page exactly when the query parses and the service succeeds, 400 for a bad query, 500 otherwise |
| FlashcardsApi.Strings | src/pages/api/flashcards/index.ts:52 | the tag strings are the array's elements, in order |
| FlashcardsApi.CreateSchemaSpec | src/pages/api/flashcards/index.ts:48-53 | a body passes exactly when front and back are non-empty strings, phonetic is absent, null or a string, and tags are at most four strings; the command carries those values |
| FlashcardsApi.BlankFrontAccepted | src/pages/api/flashcards/index.ts:49 | a front of one space passes, since nothing is trimmed |
| FlashcardsApi.PostCardStatus | src/pages/api/flashcards/index.ts:93-118 | 201 with the created card exactly when the body passes and creation succeeds, 400 for a bad body, 500 otherwise |
| TagInput.SubmitErrorSpec | src/components/ManualFlashcardForm.tsx:27-35 | a submit passes exactly when front and back are not blank and there are at most four tags; a blank field is reported first |
| TagInput.ParsedTagsAreClean | src/components/ManualFlashcardForm.tsx:70-74 | every parsed tag is non-empty, trimmed and free of commas |
| TagInput.ParseFieldRoundTrip | src/components/FlashcardItem.tsx:31-45 | joining clean tags with ", " and parsing the text gives back the same tags |
| TagInput.ParseIsIdempotent | src/components/ManualFlashcardForm.tsx:70-75 | re-parsing the shown text of parsed tags gives the same tags |
| GenerateView.NotOkMessageSpec | src/components/GenerateFlashcardsView.tsx:59-70 | a server message or status 413 gives the too-large text; otherwise 415, 429 and the rest get their own texts |
| GenerateView.GenerationRuns | src/components/GenerateFlashcardsView.tsx:80-91 | at most three retries; the run ends with the last attempt; every earlier attempt was a network failure |
| GenerateView.NotOkIsFinal | src/components/GenerateFlashcardsView.tsx:59-79 | a non-OK answer or an invalid body is never retried |
| GenerateView.NoNetworkInFixedTexts | src/components/GenerateFlashcardsView.tsx:61-85 | none of the view's own error texts counts as a network error |
| GenerateView.AlwaysOffline | src/components/GenerateFlashcardsView.tsx:81-90 | a browser that is offline throughout makes four requests and then shows the fetch error |
| GenerateView.RequestSession | src/components/GenerateFlashcardsView.tsx:45-92 | the loop gives the reference run's result and request count; 1 to 4 requests; the k-th wait is 1000*(k+1) ms |
| GenerateView.ErrorTexts | src/components/GenerateFlashcardsView.tsx:98-107 | one text per error, in order |
| GenerateView.ErrorTextSpec | src/components/GenerateFlashcardsView.tsx:99-106 | the two known codes get fixed texts; every other code shows the server's message |
| GenerateView.GenerationFailedShown | src/components/GenerateFlashcardsView.tsx:97-113 | the single GENERATION_FAILED error shows its message unchanged |
| GenerateView.ActionErrorMessageSpec | src/components/GenerateFlashcardsView.tsx:159-189 | a server message wins; otherwise the status picks the text, and only a 400 depends on whether the action was an edit |
| GenerateView.RemovalKeepsOthers | src/components/GenerateFlashcardsView.tsx:191-195 | removing a candidate drops exactly the references equal to it |
| GenerateView.FlashcardsView.HandleFileSelect | src/components/GenerateFlashcardsView.tsx:28-37 | the selection is replaced and a shown error is cleared |
| GenerateView.FlashcardsView.HandleGenerate | src/components/GenerateFlashcardsView.tsx:39-137 | without a file only the error is set; otherwise the view shows the candidates and session id, the mapped errors, or the failure message, and is no longer loading |
| GenerateView.FlashcardsView.HandleFlashcardAction | src/components/GenerateFlashcardsView.tsx:139-206 | nothing is sent without a session; success removes the acted-on candidate (the original of an edit) and toasts; failure keeps the list and shows the message |
| FlashcardItem.PhoneticOfSpec | src/components/FlashcardItem.tsx:57 | a blank phonetic becomes null, any other is trimmed |
| FlashcardItem.PhoneticRoundTrip | src/components/FlashcardItem.tsx:30-57 | a trimmed phonetic survives a round trip through the edit buffer |
| FlashcardItem.SavedCardSpec | src/components/FlashcardItem.tsx:34-59 | saving is refused for a blank front or back and then for more than four tags; a saved card has trimmed texts, clean tags and the other fields unchanged |
| FlashcardItem.SaveUntouched | src/components/FlashcardItem.tsx:27-59 | saving a clean card without typing gives back the same card |
| FlashcardItem.CandidateEditor.BeginEdit | src/components/FlashcardItem.tsx:174 | the editor opens with the current buffer |
| FlashcardItem.CandidateEditor.SetBuffer | src/components/FlashcardItem.tsx:88-122 | typing changes only the buffer |
| FlashcardItem.CandidateEditor.HandleSave | src/components/FlashcardItem.tsx:34-64 | a refused save shows its message and stays open; a good save hands the saved card on, closes and clears the error |
| FlashcardItem.CandidateEditor.HandleCancel | src/components/FlashcardItem.tsx:66-75 | the buffer is rebuilt from the card, the editor closes and the error clears |
| DashboardItem.FieldTags | src/components/DashboardFlashcardItem.tsx:68-76 | the kept tags are a prefix of the parsed ones, at most four, and all of them when there are at most four |
| DashboardItem.FieldTagsClean | src/components/DashboardFlashcardItem.tsx:70-74 | every kept tag is clean, and re-parsing the shown text of the kept tags keeps them |
| TagInput.PhoneticInput | src/components/DashboardFlashcardItem.tsx:109 | an empty input becomes null, anything else is kept as typed (the manual form's input at src/components/ManualFlashcardForm.tsx line 113 is the same) |
| DashboardItem.DashboardEditor.BeginEdit | src/components/DashboardFlashcardItem.tsx:171 | only the editing flag changes |
| DashboardItem.DashboardEditor.Cancel | src/components/DashboardFlashcardItem.tsx:126 | the editor closes and keeps the edits typed so far |
| DashboardItem.DashboardEditor.SetFront | src/components/DashboardFlashcardItem.tsx:87 | only the front of the edit data changes |
| DashboardItem.DashboardEditor.SetBack | src/components/DashboardFlashcardItem.tsx:98 | only the back of the edit data changes |
| DashboardItem.DashboardEditor.SetPhonetic | src/components/DashboardFlashcardItem.tsx:109 | only the phonetic changes, an empty input becoming null |
| DashboardItem.DashboardEditor.HandleTagsChange | src/components/DashboardFlashcardItem.tsx:68-76 | the field keeps the raw text and the edit data gets at most four parsed tags |
| DashboardItem.DashboardEditor.HandleEdit | src/components/DashboardFlashcardItem.tsx:31-66 | a refused edit toasts its message and sends nothing; otherwise the edit data is sent once and the answer decides the outcome |
| DashboardItem.DashboardEditor.Receive | src/components/DashboardFlashcardItem.tsx:53-65 | a good answer is handed on, closes the editor and toasts success; a failure toasts its message and keeps the editor open |
| DashboardItem.EditedTagsPass | src/components/DashboardFlashcardItem.tsx:38-76 | tags set through the field never trip the four-tag check |
| ManualForm.ManualFlashcardForm.SetFront | src/components/ManualFlashcardForm.tsx:91 | only the front changes |
| ManualForm.ManualFlashcardForm.SetBack | src/components/ManualFlashcardForm.tsx:102 | only the back changes |
| ManualForm.ManualFlashcardForm.SetPhonetic | src/components/ManualFlashcardForm.tsx:113 | only the phonetic changes |
| ManualForm.ManualFlashcardForm.HandleTagsChange | src/components/ManualFlashcardForm.tsx:70-76 | the tags become the parsed field, with no limit, and the shown text is those tags joined by ", " |
| ManualForm.ManualFlashcardForm.HandleSubmit | src/components/ManualFlashcardForm.tsx:23-68 | a refused submit toasts its message and sends nothing; otherwise the form data is sent once and the answer decides the outcome |
| ManualForm.ManualFlashcardForm.Receive | src/components/ManualFlashcardForm.tsx:47-67 | a good answer is handed on, the form is reset to empty and success is toasted; a failure keeps the form and toasts the message |
| ManualForm.TypedTagsCanBeRefused | src/components/ManualFlashcardForm.tsx:32-75 | more than four clean tags typed into the field are all kept, and the submit then refuses them |
| SearchBar.TagSearch.SetInput | src/components/SearchBar.tsx:65 | only the input changes |
| SearchBar.TagSearch.HandleKeyDown | src/components/SearchBar.tsx:16-34 | Enter with a non-blank input adds the trimmed tag unless there are already four or it is a duplicate, each refusal toasting its message; the selection stays distinct and at most four |
| SearchBar.TagSearch.RemoveTag | src/components/SearchBar.tsx:36-39 | exactly the removed tag goes and the selection stays distinct |
| SearchBar.AppendKeepsDistinct | src/components/SearchBar.tsx:26-28 | adding a tag that is not selected keeps the selection distinct |
| FlashcardAction.ConvertSessionIdToInteger | src/lib/services/flashcard-action.service.ts:53-59 | the id is accepted exactly when `parseInt` gives a positive integer, and is that integer |
| FlashcardAction.ConvertDecimal | src/lib/services/flashcard-action.service.ts:53-59 | the decimal text of a positive id converts back to it, whatever non-digit text follows |
| FlashcardAction.TrailingTextIgnored | src/lib/services/flashcard-action.service.ts:54 | "12abc" converts to 12 |
| FlashcardAction.ZeroAndTextRefused | src/lib/services/flashcard-action.service.ts:55-57 | "0", "-3" and "abc" are refused |
| FlashcardAction.CheckBeforeCall | src/lib/services/flashcard-action.service.ts:21-35 | without the session the not-found error comes first and no call is made; an id that does not convert is refused before the call |
| FlashcardAction.CallAndMapping | src/lib/services/flashcard-action.service.ts:34-51 | the call gets the converted id, the user, the action and the card (none for a rejection); its error is prefixed and its row is mapped field by field |
| DashboardPage.StaleRetriesUnbounded | src/components/DashboardPage.tsx:24-46 | as written, any number of network failures in a row is retried |
| DashboardPage.StaleRetryExceedsLimit | src/components/DashboardPage.tsx:29-36 | as written, five failures and an answer take six requests, more than three retries allow |
| DashboardPage.BoundedRetries | src/components/DashboardPage.tsx:29-42 | corrected: at most three retries counted from the current count; the result is the last attempt; only network failures are retried |
| DashboardPage.QueryString | src/components/DashboardPage.tsx:55 | the query string is empty exactly when no tag is selected |
| DashboardPage.QueryTagsRoundTrip | src/components/DashboardPage.tsx:55 | the list endpoint reads back exactly the selected tags from the query string |
| DashboardPage.ReplaceById | src/components/DashboardPage.tsx:100 | each card with the edited id is replaced and the others kept, in order |
| DashboardPage.ReplaceKeepsIds | src/components/DashboardPage.tsx:100 | ids stay as they were, and an unknown id changes nothing |
| DashboardPage.RemoveById | src/components/DashboardPage.tsx:117 | exactly the cards with other ids remain |
| DashboardPage.RemoveByIdConcat | src/components/DashboardPage.tsx:117 | removal distributes over concatenation |
| DashboardPage.Page.WithRetries | src/components/DashboardPage.tsx:24-46 | the corrected loop gives the reference result, raises the count once per retry, waits 1000*(count+1) ms each time and shows the final failure |
| DashboardPage.Shown | src/components/DashboardPage.tsx:39 | a final rejection shows the error's own message, or the caller's fallback text when the value thrown is not an `Error` |
| DashboardPage.Page.HandleAdd | src/components/DashboardPage.tsx:82-84 | the new card is appended |
| DashboardPage.Page.HandleEdit | src/components/DashboardPage.tsx:86-105 | corrected retry rule (`WithRetries`, see Findings): the retry count rises by the number of retries; a resolved request replaces the card and toasts success; a final rejection leaves the list alone and sets and toasts the error's message, or the update fallback text when the value thrown is not an `Error` |
| DashboardPage.Page.HandleDelete | src/components/DashboardPage.tsx:107-122 | corrected retry rule (`WithRetries`, see Findings): the retry count rises by the number of retries; a resolved request removes the card and toasts success; a final rejection leaves the list alone and sets and toasts the error's message, or the delete fallback text when the value thrown is not an `Error` |
| DashboardPage.Page.HandleTagsChange | src/components/DashboardPage.tsx:124-126 | only the selected tags change |
| DashboardPage.Page.LoadFlashcards | src/components/DashboardPage.tsx:48-77 | corrected retry rule (`WithRetries`, see Findings): the count is reset and ends at the number of retries, the URL carries the tags, a final rejection sets and toasts its message (or the list fallback text), a resolved request adds no toast, and loading ends |
| Navigation.ActiveBelow | src/components/hooks/useNavigation.ts:38-43 | an entry other than the root is active on every path below it |
| Navigation.ActiveIffPrefix | src/components/hooks/useNavigation.ts:42 | an entry other than the root is active exactly when it is a prefix of the current path |
| Navigation.ActiveExamples | src/components/hooks/useNavigation.ts:39-42 | the root is active on "/dashboard" but not on "/generate", while "/gen" is |
| Navigation.NavigationState.constructor | src/components/hooks/useNavigation.ts:16-21 | the path is read on mount and the menu starts closed |
| Navigation.NavigationState.ToggleMobileMenu | src/components/hooks/useNavigation.ts:35 | the flag flips and the path stays |
| Navigation.NavigationState.CloseMobileMenu | src/components/hooks/useNavigation.ts:36 | the menu is closed, however often this is called |
| Navigation.NavigationState.HandleLocationChange | src/components/hooks/useNavigation.ts:24-27 | the new path is taken and the menu closes |
| RegisterForm.ValidatePasswordSpec | src/components/auth/RegisterForm.tsx:18-32 | a password passes exactly when it has 8 characters, an upper-case and a lower-case letter and a digit; each message means its rule failed and the earlier ones held |
| RegisterForm.PasswordExamples | src/components/auth/RegisterForm.tsx:18-32 | "Passw0rd" passes and "password1" lacks an upper-case letter |
| RegisterForm.SubmitErrorOrder | src/components/auth/RegisterForm.tsx:38-52 | the mismatch is reported only for a valid password; a form passes exactly when filled, valid and confirmed |
| RegisterForm.FailureText | src/components/auth/RegisterForm.tsx:57-58 | an Error shows its message, anything else thrown shows the fixed text, and success shows nothing |
| RegisterForm.Form.HandleSubmit | src/components/auth/RegisterForm.tsx:34-62 | the error is cleared first; `onSubmit` is called exactly when every check passes; its failure is shown; loading ends false |
| Middleware.ExactMatch | src/middleware/index.ts:4-24 | the public paths match exactly: "/auth/login/", "/auth/forgot-password", "/api/auth/logout" and "/" are not public |
| Middleware.Decide | src/middleware/index.ts:24-43 | a request goes on exactly when its path is public or a user is signed in; every other request is sent to "/auth/login" |
| Middleware.SignedOutRedirected | src/middleware/index.ts:4-43 | a signed-out visitor of the password recovery page or the logout endpoint is redirected |
| Middleware.OnRequest | src/middleware/index.ts:13-44 | the client is attached on every request; the user is looked up exactly for non-public paths; a user is attached as id and email |
| FormatCardName.Format | src/__tests__/utils/example.test.ts:4-8 | an empty name gives ""; a name within the limit is kept; a longer one becomes its first maxLength characters plus "...", of length maxLength + 3 |
| FormatCardName.FormatDefault | src/__tests__/utils/example.test.ts:4 | with the default limit of 30 the result has at most 33 characters |
| FormatCardName.TestCases | src/__tests__/utils/example.test.ts:10-30 | the four cases of the test file, the long name written as the thirty kept characters followed by the rest |
| FormatCardName.Truncates | src/__tests__/utils/example.test.ts:6-7 | a name longer than the limit keeps exactly its first `maxLength` characters followed by "..." |
| FormatCardName.FormatIdempotentWhenShort | src/__tests__/utils/example.test.ts:6 | a name within the limit is a fixed point |

## Left out

- Network, database, clock and randomness: `fetch`, the Supabase client, `Date.now`, `setTimeout` and `Math.random` are parameters. Waits are recorded as delays, and the gateway's jitter is an input bounded by 10% of the delay.
- OpenRouter.NormalizedParameters: numbers are exact reals, so NaN and the rounding of doubles are not modelled. A `maxTokens` or `temperature` that is present but not a number is passed through unchanged, although JavaScript's `Math.min`/`Math.max` would turn it into NaN or a number.
- OpenRouter.SendRequest: the model assumes that `new RegExp(apiKey, "g")` in `sanitizeErrorMessage` succeeds, so `logError` only writes to the console. The configuration schema accepts any non-empty key. For a key that is not a valid regular expression, such as "key(" or "*", every `logError` call throws a SyntaxError instead. At openrouter.service.ts line 233 that SyntaxError replaces the "Failed to send request after N attempts: …" error that `ExhaustedError` and `RunOutcome` state. At line 335 it is retried in place of "Invalid response format from OpenRouter API".
- JSON parsing, base64 encoding and zod parsing of the gateway's answer are abstract: they are given as already-parsed values or as "the body matches the schema".
- Rendering, toasts as UI, drag styling, the drag counter, focus handling and every component listed as pure display.
- `useEffect` re-runs in `DashboardPage`: a change of the selected tags or of the retry count starts a new load. `LoadFlashcards` models one run only.
- DashboardPage.Page.HandleEdit, DashboardPage.Page.HandleDelete and DashboardPage.Page.LoadFlashcards: all three run the corrected retry rule (`WithRetries`, `Final`, `Requests`), not the stale-closure rule the code has (`StaleRequests`). They differ from the code once more than 3 - retryCount network failures come in a row. The code then goes on retrying with a fixed wait of 1000*(retryCount+1) ms and, on a later answer, applies it (replacing or removing the card and toasting success); the model stops, shows the error and leaves the list alone.
- DashboardPage.Page.LoadFlashcards: does not state the list after an OK answer, because the code stores the whole `{data, total}` response object as the list.
- DashboardPage.Page.LoadFlashcards: a non-OK answer throws inside the page's own try block; that error is swallowed, so the model leaves the error field empty there.
- FlashcardService.Range: the list query asks for an exact count, and the store refuses an offset past that count (status 416), so the code throws "Failed to fetch flashcards: …". The model instead returns an empty page, and leaves that refusal to the `cardFault` input of `ListFlashcards`.
- FlashcardAction.ConvertSessionIdToInteger: integers are unbounded, but JavaScript numbers are doubles. An id of about 309 or more digits parses to Infinity, which fails `Number.isInteger`, so the code refuses it and the model accepts it. An id above 2^53 is rounded by the code and kept exact by the model.
- FlashcardAction.ConvertDecimal: in the code the round trip holds only for ids up to 2^53; the model states it for every positive id, for the number-width reason above.
- FlashcardsApi.JsNumberOfDigits: `Number()` of digit text gives back the value exactly in the code only up to 2^53, and gives Infinity from about 10^308 on; the model states the round trip for every value.
- FlashcardsApi.ListQuerySpec: numbers have no width. A page or limit whose digits `Number()` turns into Infinity fails `.int()` in the code (status 400) and is accepted by the model; a page above 2^53 is rounded by the code and kept exact by the model.
- FlashcardsApi.ListQuerySpec: `Number(s)` (through `JsNumber`) is modelled only for blank text and optionally signed decimal digits; every other spelling counts as "not an integer". So a page or limit written in any other spelling that `Number()` maps to a positive integer, such as "2.0", "3.", "1e2", "0x10", "0b1" or "0o7", is accepted by the endpoint but refused by the model.
- URL encoding of the query string: tags go into the URL as typed, and `searchParams` is taken as giving them back unchanged.
- Repeated query parameters: `Object.fromEntries` keeps the last value of a key; the model starts from that map.
- Messages in JSON error bodies that are present but not strings are treated as absent.
- RegisterForm.ValidatePassword: length counts characters, whereas JavaScript counts UTF-16 code units, so the two differ for characters outside the Basic Multilingual Plane.
- `handleLogout` in `useNavigation` is a fetch followed by a redirect and is not modelled.
- Where the design description and the code disagree, the model follows the code:
  - the gateway retries a body that does not match the response schema;
  - an empty `choices` array fails inside the generation service;
  - a failed generation never writes an error row, because the session is saved last;
  - the model name is an opaque input, because the response schema drops it.
- GenerateView.NotOkMessage: keeps the code's operator precedence, under which any server message or status 413 gives the "too large" text. Whether that was intended cannot be told from the code, so it is modelled as written and not corrected.
- Network errors are recognised by `includes("network")` and `includes("failed to fetch")`. This is case-sensitive; which texts a browser produces is outside the model.

## Findings

| source | as written | input that shows it | evidently intended | confidence | as-written member | corrected member |
|---|---|---|---|---|---|---|
| src/components/DashboardPage.tsx:24-46 | the retry guard reads `retryCount` from the closure the callback was created in; `setRetryCount` does not change that copy, so the recursive call tests the same stale value and a run of network failures is retried without end | five rejected fetches with "failed to fetch" and then an answer: six requests, although `MAX_RETRIES` is 3 | at most `MAX_RETRIES` retries, with the count rising on each retry | not executed | DashboardPage.StaleRetryExceedsLimit | DashboardPage.BoundedRetries |
