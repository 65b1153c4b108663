/** `DashboardPage`: the list of saved cards and the retry wrapper around
    its requests. The list, the filter tags, the error and `retryCount`
    are fields of a class; the answers of `fetch` are parameters. */
module DashboardPage {
  import opened Common
  import opened Types
  import FlashcardsApi

  const MaxRetries: nat := 3
  const RetryDelay: nat := 1000

  /** What one `fetch` did: it resolved with a status, or it rejected
      with a value that is an `Error` or not (`isError`; a `TypeError`,
      `typeError`, is one). */
  datatype FetchResult = Resolved(ok: bool, status: int) | Rejected(isError: bool, typeError: bool, message: string)

  /** Only an `Error` can pass the guard's two `instanceof` tests. */
  predicate Retryable(f: FetchResult)
  {
    f.Rejected? && f.isError && IsNetworkError(f.typeError, f.message)
  }

  /** The text a final rejection shows: the error's own message, or the
      caller's fallback text when the thrown value is not an `Error`. */
  function Shown(f: FetchResult, fallback: string): (t: string)
    requires f.Rejected?
    ensures f.isError ==> t == f.message
    ensures !f.isError ==> t == fallback
  {
    if f.isError then f.message else fallback
  }

  /** `handleNetworkError` as written. The guard reads the `retryCount`
      the callback was created with (`stale`); `setRetryCount` does not
      change that copy, so the recursive call tests the same value again.
      `outcomes` are the answers of the successive requests; the last one
      is taken as final. */
  function StaleRequests(outcomes: seq<FetchResult>, stale: nat): (n: nat)
    requires outcomes != []
    decreases |outcomes|
  {
    if |outcomes| > 1 && stale < MaxRetries && Retryable(outcomes[0]) then 1 + StaleRequests(outcomes[1..], stale)
    else 1
  }

  function Repeat<T>(x: T, n: nat): (r: seq<T>)
    ensures |r| == n && forall i :: 0 <= i < n ==> r[i] == x
  {
    if n == 0 then [] else [x] + Repeat(x, n - 1)
  }

  /** As written, any number of network failures in a row is retried:
      `n` failures and an answer take `n + 1` requests. */
  lemma {:induction false} StaleRetriesUnbounded(failure: FetchResult, answer: FetchResult, n: nat)
    requires Retryable(failure)
    ensures StaleRequests(Repeat(failure, n) + [answer], 0) == n + 1
  {
    if n > 0 {
      var s := Repeat(failure, n) + [answer];
      assert s[0] == failure;
      assert s[1..] == Repeat(failure, n - 1) + [answer];
      StaleRetriesUnbounded(failure, answer, n - 1);
    }
  }

  /** Five failed fetches and then an answer make six requests, two more
      than `MAX_RETRIES` allows. */
  lemma StaleRetryExceedsLimit()
    ensures StaleRequests(Repeat(Rejected(true, true, "failed to fetch"), 5) + [Resolved(true, 200)], 0) == MaxRetries + 3
  {
    assert OccursAt("failed to fetch", "failed to fetch", 0);
    StaleRetriesUnbounded(Rejected(true, true, "failed to fetch"), Resolved(true, 200), 5);
  }

  /** The retry rule as intended: the count read by the guard is the one
      the retries increase. Starting from `count`, request `k` is
      answered by `env(k)`; this is the answer the run ends with. */
  function Final(env: nat -> FetchResult, count: nat, k: nat): FetchResult
    decreases MaxRetries - count
  {
    if count < MaxRetries && Retryable(env(k)) then Final(env, count + 1, k + 1) else env(k)
  }

  /** The number of requests of that run. */
  function Requests(env: nat -> FetchResult, count: nat, k: nat): nat
    decreases MaxRetries - count
  {
    if count < MaxRetries && Retryable(env(k)) then 1 + Requests(env, count + 1, k + 1) else 1
  }

  /** With the count the retries increase, a run makes at most
      `MAX_RETRIES - count` retries; it ends on an answer that is not a
      network failure or when the count reaches the limit, and every
      earlier request was a network failure. */
  lemma {:induction false} BoundedRetries(env: nat -> FetchResult, count: nat, k: nat)
    ensures 1 <= Requests(env, count, k)
    ensures count <= MaxRetries ==> Requests(env, count, k) <= MaxRetries + 1 - count
    ensures count >= MaxRetries ==> Requests(env, count, k) == 1
    ensures var last := k + Requests(env, count, k) - 1;
      && Final(env, count, k) == env(last)
      && (forall j :: k <= j < last ==> Retryable(env(j)))
      && (Retryable(Final(env, count, k)) ==> count + Requests(env, count, k) - 1 >= MaxRetries)
    decreases MaxRetries - count
  {
    if count < MaxRetries && Retryable(env(k)) {
      BoundedRetries(env, count + 1, k + 1);
    }
  }

  /** The query string of the list request. */
  function QueryString(tags: seq<string>): (q: string)
    ensures tags == [] <==> q == ""
  {
    if |tags| > 0 then "?tags=" + Join(tags, ",") else ""
  }

  /** The endpoint reads the filter back: joining comma-free tags with ","
      and parsing the value as the list query does gives the tags. */
  lemma QueryTagsRoundTrip(tags: seq<string>)
    requires tags != [] && Join(tags, ",") != ""
    requires forall i :: 0 <= i < |tags| ==> ',' !in tags[i]
    ensures FlashcardsApi.ParseListQuery(map["tags" := Join(tags, ",")]) == Ok(FlashcardsApi.ListQuery(1, 20, Some(tags)))
  {
    assert Split(Join(tags, ","), ',') == tags by {
      assert [','] == ",";
      SplitJoin(tags, ',');
    }
    FlashcardsApi.TagsOnlyQuery(Join(tags, ","));
  }

  /** `cards.map(card => card.id === edited.id ? edited : card)` */
  function ReplaceById(cards: seq<FlashcardDTO>, edited: FlashcardDTO): (r: seq<FlashcardDTO>)
    ensures |r| == |cards|
    ensures forall i :: 0 <= i < |r| ==> r[i] == (if cards[i].id == edited.id then edited else cards[i])
  {
    if cards == [] then [] else [if cards[0].id == edited.id then edited else cards[0]] + ReplaceById(cards[1..], edited)
  }

  /** Editing keeps the ids, the length and the order, and leaves a list
      without that id unchanged. */
  lemma ReplaceKeepsIds(cards: seq<FlashcardDTO>, edited: FlashcardDTO)
    ensures forall i :: 0 <= i < |cards| ==> ReplaceById(cards, edited)[i].id == cards[i].id
    ensures (forall i :: 0 <= i < |cards| ==> cards[i].id != edited.id) ==> ReplaceById(cards, edited) == cards
  {
  }

  /** `cards.filter(card => card.id !== id)` */
  function RemoveById(cards: seq<FlashcardDTO>, id: int): (r: seq<FlashcardDTO>)
    ensures |r| <= |cards|
    ensures forall i :: 0 <= i < |r| ==> r[i].id != id && r[i] in cards
    ensures forall i :: 0 <= i < |cards| && cards[i].id != id ==> cards[i] in r
  {
    if cards == [] then []
    else if cards[0].id == id then RemoveById(cards[1..], id)
    else [cards[0]] + RemoveById(cards[1..], id)
  }

  /** Deleting keeps the order of the rest: it distributes over
      concatenation. */
  lemma {:induction false} RemoveByIdConcat(a: seq<FlashcardDTO>, b: seq<FlashcardDTO>, id: int)
    ensures RemoveById(a + b, id) == RemoveById(a, id) + RemoveById(b, id)
  {
    if a == [] {
      assert a + b == b;
    } else {
      assert (a + b)[1..] == a[1..] + b;
      RemoveByIdConcat(a[1..], b, id);
    }
  }

  const ListFailedMessage: string := "Failed to fetch flashcards. Please check your connection and try again."
  const UpdateFailedMessage: string := "Failed to update flashcard. Please check your connection and try again."
  const DeleteFailedMessage: string := "Failed to delete flashcard. Please check your connection and try again."
  const UpdatedMessage: string := "Flashcard updated successfully"
  const DeletedMessage: string := "Flashcard deleted successfully"

  datatype Toast = ErrorToast(message: string) | SuccessToast(message: string)

  class Page {
    var flashcards: seq<FlashcardDTO>
    var isLoading: bool
    var error: Option<string>
    var selectedTags: seq<string>
    var retryCount: nat
    var toasts: seq<Toast>

    constructor ()
      ensures flashcards == [] && !isLoading && error == None && selectedTags == [] && retryCount == 0 && toasts == []
    {
      flashcards, isLoading, error, selectedTags, retryCount, toasts := [], false, None, [], 0, [];
    }

    /** `handleNetworkError` with the intended count: retries while the
        current `retryCount` is below the limit, waiting 1000 ms times the
        new count; a final rejection sets the error and a toast, with the
        error's message or else `fallback`, and is the result. */
    method WithRetries(env: nat -> FetchResult, fallback: string) returns (result: FetchResult, requests: nat, delays: seq<nat>)
      modifies this
      ensures result == Final(env, old(retryCount), 0) && requests == Requests(env, old(retryCount), 0)
      ensures retryCount == old(retryCount) + requests - 1
      ensures |delays| == requests - 1
      ensures forall i :: 0 <= i < |delays| ==> delays[i] == RetryDelay * (old(retryCount) + i + 1)
      ensures result.Rejected? ==> error == Some(Shown(result, fallback)) && toasts == old(toasts) + [ErrorToast(Shown(result, fallback))]
      ensures result.Resolved? ==> error == old(error) && toasts == old(toasts)
      ensures flashcards == old(flashcards) && isLoading == old(isLoading) && selectedTags == old(selectedTags)
    {
      var k: nat := 0;
      delays := [];
      while retryCount < MaxRetries && Retryable(env(k))
        invariant retryCount == old(retryCount) + k && |delays| == k
        invariant forall i :: 0 <= i < k ==> delays[i] == RetryDelay * (old(retryCount) + i + 1)
        invariant Final(env, retryCount, k) == Final(env, old(retryCount), 0)
        invariant k + Requests(env, retryCount, k) == Requests(env, old(retryCount), 0)
        invariant error == old(error) && toasts == old(toasts)
        invariant flashcards == old(flashcards) && isLoading == old(isLoading) && selectedTags == old(selectedTags)
        decreases MaxRetries - retryCount
      {
        retryCount := retryCount + 1;
        var delay: nat := RetryDelay * retryCount;
        delays := delays + [delay];
        k := k + 1;
      }
      result, requests := env(k), k + 1;
      Settle(result, fallback);
    }

    /** The end of the retries: a rejection sets the error and a toast. */
    method Settle(result: FetchResult, fallback: string)
      modifies this
      ensures result.Rejected? ==> error == Some(Shown(result, fallback)) && toasts == old(toasts) + [ErrorToast(Shown(result, fallback))]
      ensures result.Resolved? ==> error == old(error) && toasts == old(toasts)
      ensures flashcards == old(flashcards) && isLoading == old(isLoading) && selectedTags == old(selectedTags)
      ensures retryCount == old(retryCount)
    {
      match result {
        case Rejected(_, _, _) =>
          var message := Shown(result, fallback);
          error := Some(message);
          toasts := toasts + [ErrorToast(message)];
        case Resolved(_, _) =>
      }
    }

    /** `handleAddFlashcard`: the new card goes at the end. */
    method HandleAdd(card: FlashcardDTO)
      modifies this
      ensures flashcards == old(flashcards) + [card]
      ensures isLoading == old(isLoading) && error == old(error) && selectedTags == old(selectedTags)
      ensures retryCount == old(retryCount) && toasts == old(toasts)
    {
      flashcards := flashcards + [card];
    }

    /** `handleEditFlashcard`: the list changes whenever `fetch` resolved,
        whatever the status. */
    method HandleEdit(edited: FlashcardDTO, env: nat -> FetchResult) returns (requests: nat)
      modifies this
      ensures requests == Requests(env, old(retryCount), 0) && retryCount == old(retryCount) + requests - 1
      ensures Final(env, old(retryCount), 0).Resolved? ==>
        flashcards == ReplaceById(old(flashcards), edited) && error == old(error)
        && toasts == old(toasts) + [SuccessToast(UpdatedMessage)]
      ensures Final(env, old(retryCount), 0).Rejected? ==>
        var shown := Shown(Final(env, old(retryCount), 0), UpdateFailedMessage);
        flashcards == old(flashcards) && error == Some(shown) && toasts == old(toasts) + [ErrorToast(shown)]
      ensures isLoading == old(isLoading) && selectedTags == old(selectedTags)
    {
      var result, delays;
      result, requests, delays := WithRetries(env, UpdateFailedMessage);
      if result.Resolved? {
        flashcards := ReplaceById(flashcards, edited);
        toasts := toasts + [SuccessToast(UpdatedMessage)];
      }
    }

    /** `handleDeleteFlashcard`: likewise, with the filter by id. */
    method HandleDelete(id: int, env: nat -> FetchResult) returns (requests: nat)
      modifies this
      ensures requests == Requests(env, old(retryCount), 0) && retryCount == old(retryCount) + requests - 1
      ensures Final(env, old(retryCount), 0).Resolved? ==>
        flashcards == RemoveById(old(flashcards), id) && error == old(error)
        && toasts == old(toasts) + [SuccessToast(DeletedMessage)]
      ensures Final(env, old(retryCount), 0).Rejected? ==>
        var shown := Shown(Final(env, old(retryCount), 0), DeleteFailedMessage);
        flashcards == old(flashcards) && error == Some(shown) && toasts == old(toasts) + [ErrorToast(shown)]
      ensures isLoading == old(isLoading) && selectedTags == old(selectedTags)
    {
      var result, delays;
      result, requests, delays := WithRetries(env, DeleteFailedMessage);
      if result.Resolved? {
        flashcards := RemoveById(flashcards, id);
        toasts := toasts + [SuccessToast(DeletedMessage)];
      }
    }

    method HandleTagsChange(tags: seq<string>)
      modifies this
      ensures selectedTags == tags
      ensures flashcards == old(flashcards) && isLoading == old(isLoading) && error == old(error)
      ensures retryCount == old(retryCount) && toasts == old(toasts)
    {
      selectedTags := tags;
    }

    /** `fetchFlashcards`: the count is reset, the request goes to `url`.
        A non-OK answer is thrown into an empty `catch`, so it shows no
        error; only a final rejection does. */
    method LoadFlashcards(env: nat -> FetchResult) returns (url: string, requests: nat)
      modifies this
      ensures url == "/api/flashcards" + QueryString(old(selectedTags))
      ensures requests == Requests(env, 0, 0) && retryCount == requests - 1
      ensures !isLoading && selectedTags == old(selectedTags)
      ensures Final(env, 0, 0).Rejected? ==>
        var shown := Shown(Final(env, 0, 0), ListFailedMessage);
        error == Some(shown) && toasts == old(toasts) + [ErrorToast(shown)]
      ensures Final(env, 0, 0).Resolved? ==> error == None && toasts == old(toasts)
      ensures !(Final(env, 0, 0).Resolved? && Final(env, 0, 0).ok) ==> flashcards == old(flashcards)
    {
      isLoading, error, retryCount := true, None, 0;
      url := "/api/flashcards" + QueryString(selectedTags);
      var result, delays;
      result, requests, delays := WithRetries(env, ListFailedMessage);
      isLoading := false;
    }
  }
}
