/** `FlashcardService` over in-memory tables: the `flashcards` rows and
    the `tags` rows (one row per tag of a card). Row-level security is
    the filter on the owning user; a database error is an input
    (`Some(message)`) of the operation that meets it. */
module FlashcardService {
  import opened Common
  import opened Types

  datatype CardRow = CardRow(
    id: int,
    userId: string,
    front: string,
    back: string,
    phonetic: Option<string>,
    source: string,
    createdAt: string,
    updatedAt: string)

  datatype TagRow = TagRow(flashcardId: int, tag: string)

  /** `{ data, total }` of a list request. */
  datatype Page = Page(data: seq<FlashcardDTO>, total: nat)

  const NotFound: string := "Flashcard not found or access denied"

  // ------------------------------------------------------- table queries

  /** The tag strings of the rows of card `id`, in table order. */
  function TagsOf(tags: seq<TagRow>, id: int): (r: seq<string>)
    ensures |r| <= |tags|
  {
    if tags == [] then []
    else (if tags[0].flashcardId == id then [tags[0].tag] else []) + TagsOf(tags[1..], id)
  }

  /** The row-to-DTO mapping of `listFlashcards` and `getFlashcard`. */
  function ToDto(c: CardRow, tags: seq<TagRow>): FlashcardDTO
  {
    FlashcardDTO(c.id, c.front, c.back, c.phonetic, c.source, c.createdAt, c.updatedAt, c.userId, TagsOf(tags, c.id))
  }

  function ToDtos(cards: seq<CardRow>, tags: seq<TagRow>): (r: seq<FlashcardDTO>)
    ensures |r| == |cards|
    ensures forall i :: 0 <= i < |cards| ==> r[i] == ToDto(cards[i], tags)
  {
    if cards == [] then [] else [ToDto(cards[0], tags)] + ToDtos(cards[1..], tags)
  }

  /** The card `id` of `userId`, if there is one. */
  function FindCard(cards: seq<CardRow>, userId: string, id: int): (r: Option<CardRow>)
    ensures r.Some? ==> r.value in cards && r.value.id == id && r.value.userId == userId && id in CardIds(cards)
    ensures r.None? ==> forall i :: 0 <= i < |cards| ==> !(cards[i].id == id && cards[i].userId == userId)
  {
    if cards == [] then None
    else if cards[0].id == id && cards[0].userId == userId then Some(cards[0])
    else FindCard(cards[1..], userId, id)
  }

  /** The ids of the cards of `userId`. */
  function OwnedIds(cards: seq<CardRow>, userId: string): set<int>
  {
    set i | 0 <= i < |cards| && cards[i].userId == userId :: cards[i].id
  }

  /** `.from("tags").select("flashcard_id").in("tag", filter)` under
      row-level security: the tag rows of the user's cards whose tag is
      requested. */
  function MatchingTagRows(tags: seq<TagRow>, owned: set<int>, filter: seq<string>): (r: seq<TagRow>)
    ensures forall k :: 0 <= k < |r| ==> r[k] in tags && r[k].flashcardId in owned && r[k].tag in filter
    ensures forall k :: 0 <= k < |tags| && tags[k].flashcardId in owned && tags[k].tag in filter ==> tags[k] in r
  {
    if tags == [] then []
    else
      (if tags[0].flashcardId in owned && tags[0].tag in filter then [tags[0]] else [])
      + MatchingTagRows(tags[1..], owned, filter)
  }

  /** The card ids of some tag rows. */
  function RowIds(rows: seq<TagRow>): set<int>
  {
    set k | 0 <= k < |rows| :: rows[k].flashcardId
  }

  /** An id has a matching tag row exactly when it is one of the owned
      ids and some tag row of it carries a requested tag. */
  lemma MatchingIdsSpec(tags: seq<TagRow>, owned: set<int>, filter: seq<string>, id: int)
    ensures id in RowIds(MatchingTagRows(tags, owned, filter)) <==>
      id in owned && exists k :: 0 <= k < |tags| && tags[k].flashcardId == id && tags[k].tag in filter
  {
    var matching := MatchingTagRows(tags, owned, filter);
    if id in RowIds(matching) {
      var m :| 0 <= m < |matching| && matching[m].flashcardId == id;
      var k :| 0 <= k < |tags| && tags[k] == matching[m];
      assert tags[k].flashcardId == id && tags[k].tag in filter;
    }
    if k :| 0 <= k < |tags| && tags[k].flashcardId == id && tags[k].tag in filter {
      if id in owned {
        var m :| 0 <= m < |matching| && matching[m] == tags[k];
        assert matching[m].flashcardId == id;
      }
    }
  }

  /** `.eq("user_id", userId)` and, when ids are given, `.in("id", ids)`. */
  function QueryCards(cards: seq<CardRow>, userId: string, ids: Option<set<int>>): (r: seq<CardRow>)
    ensures |r| <= |cards|
    ensures forall i :: 0 <= i < |r| ==> r[i] in cards && r[i].userId == userId && (ids.Some? ==> r[i].id in ids.value)
    ensures forall i :: 0 <= i < |cards| && cards[i].userId == userId && (ids.Some? ==> cards[i].id in ids.value)
              ==> cards[i] in r
  {
    if cards == [] then []
    else
      (if cards[0].userId == userId && (ids.Some? ==> cards[0].id in ids.value) then [cards[0]] else [])
      + QueryCards(cards[1..], userId, ids)
  }

  /** A row is selected exactly when it is the user's and, with ids
      given, its id is one of them. */
  lemma QueryCardsMember(cards: seq<CardRow>, userId: string, ids: Option<set<int>>, c: CardRow)
    ensures c in QueryCards(cards, userId, ids) <==>
      c in cards && c.userId == userId && (ids.Some? ==> c.id in ids.value)
  {
    var r := QueryCards(cards, userId, ids);
    if c in cards && c.userId == userId && (ids.Some? ==> c.id in ids.value) {
      var i :| 0 <= i < |cards| && cards[i] == c;
    }
    if c in r {
      var i :| 0 <= i < |r| && r[i] == c;
    }
  }

  /** The first row of a page: `(page - 1) * limit`. */
  function PageOffset(page: int, limit: int): nat
    requires page >= 1 && limit >= 1
  {
    (page - 1) * limit
  }

  /** `.range(offset, offset + limit - 1)`: both ends inclusive, cut at
      the end of the rows. */
  function Range<T>(rows: seq<T>, offset: nat, limit: nat): (r: seq<T>)
    ensures |r| <= limit
    ensures offset <= |rows| ==> r == rows[offset..if offset + limit <= |rows| then offset + limit else |rows|]
    ensures offset >= |rows| ==> r == []
  {
    if offset >= |rows| then []
    else if offset + limit <= |rows| then rows[offset..offset + limit]
    else rows[offset..]
  }

  /** The tag rows `command.tags.map(tag => ({ flashcard_id: id, tag }))`. */
  function TagRowsFor(id: int, tags: seq<string>): (r: seq<TagRow>)
    ensures |r| == |tags|
    ensures forall k :: 0 <= k < |r| ==> r[k] == TagRow(id, tags[k])
  {
    if tags == [] then [] else [TagRow(id, tags[0])] + TagRowsFor(id, tags[1..])
  }

  /** `.from("tags").delete().eq("flashcard_id", id)` */
  function RemoveTagsOf(tags: seq<TagRow>, id: int): (r: seq<TagRow>)
    ensures |r| <= |tags|
    ensures forall k :: 0 <= k < |r| ==> r[k] in tags && r[k].flashcardId != id
    ensures forall k :: 0 <= k < |tags| && tags[k].flashcardId != id ==> tags[k] in r
  {
    if tags == [] then []
    else (if tags[0].flashcardId == id then [] else [tags[0]]) + RemoveTagsOf(tags[1..], id)
  }

  /** `.from("flashcards").delete().eq("id", id)`, further restricted to
      the user's rows when `userId` is given. */
  function RemoveCard(cards: seq<CardRow>, id: int, userId: Option<string>): (r: seq<CardRow>)
    ensures |r| <= |cards|
  {
    if cards == [] then []
    else
      (if cards[0].id == id && (userId.Some? ==> cards[0].userId == userId.value) then [] else [cards[0]])
      + RemoveCard(cards[1..], id, userId)
  }

  /** The fields `updateFlashcard` writes into the row. */
  function Patch(c: CardRow, cmd: UpdateCommand): CardRow
  {
    c.(front := cmd.front, back := cmd.back,
       phonetic := if cmd.phonetic.Omitted? then c.phonetic else cmd.phonetic.value)
  }

  /** `.update(...).eq("id", id).eq("user_id", userId)` */
  function UpdateRows(cards: seq<CardRow>, userId: string, cmd: UpdateCommand): (r: seq<CardRow>)
    ensures |r| == |cards|
    ensures forall i :: 0 <= i < |cards| ==>
      r[i] == if cards[i].id == cmd.id && cards[i].userId == userId then Patch(cards[i], cmd) else cards[i]
  {
    if cards == [] then []
    else
      [if cards[0].id == cmd.id && cards[0].userId == userId then Patch(cards[0], cmd) else cards[0]]
      + UpdateRows(cards[1..], userId, cmd)
  }

  // ---------------------------------------------------- lemmas on tables

  lemma {:induction false} TagsOfAppend(a: seq<TagRow>, b: seq<TagRow>, id: int)
    ensures TagsOf(a + b, id) == TagsOf(a, id) + TagsOf(b, id)
  {
    if a != [] {
      assert (a + b)[1..] == a[1..] + b;
      TagsOfAppend(a[1..], b, id);
    } else {
      assert a + b == b;
    }
  }

  lemma {:induction false} TagsOfRows(id: int, other: int, tags: seq<string>)
    ensures TagsOf(TagRowsFor(id, tags), id) == tags
    ensures other != id ==> TagsOf(TagRowsFor(id, tags), other) == []
  {
    if tags != [] {
      TagsOfRows(id, other, tags[1..]);
      assert TagRowsFor(id, tags)[1..] == TagRowsFor(id, tags[1..]);
    }
  }

  lemma {:induction false} TagsOfAbsent(tags: seq<TagRow>, id: int)
    requires forall k :: 0 <= k < |tags| ==> tags[k].flashcardId != id
    ensures TagsOf(tags, id) == []
  {
    if tags != [] {
      TagsOfAbsent(tags[1..], id);
    }
  }

  lemma {:induction false} TagsOfRemoved(tags: seq<TagRow>, id: int, other: int)
    ensures TagsOf(RemoveTagsOf(tags, id), id) == []
    ensures other != id ==> TagsOf(RemoveTagsOf(tags, id), other) == TagsOf(tags, other)
  {
    if tags != [] {
      TagsOfRemoved(tags[1..], id, other);
      var head: seq<TagRow> := if tags[0].flashcardId == id then [] else [tags[0]];
      TagsOfAppend(head, RemoveTagsOf(tags[1..], id), id);
      TagsOfAppend(head, RemoveTagsOf(tags[1..], id), other);
    }
  }

  /** Replacing the tag rows of a card makes its tags exactly the new
      list and leaves every other card's tags as they were. */
  lemma TagReplacement(tags: seq<TagRow>, id: int, newTags: seq<string>, other: int)
    ensures TagsOf(RemoveTagsOf(tags, id) + TagRowsFor(id, newTags), id) == newTags
    ensures other != id ==> TagsOf(RemoveTagsOf(tags, id) + TagRowsFor(id, newTags), other) == TagsOf(tags, other)
  {
    var rem := RemoveTagsOf(tags, id);
    var add := TagRowsFor(id, newTags);
    assert TagsOf(rem + add, id) == newTags by {
      TagsOfAppend(rem, add, id);
      TagsOfRemoved(tags, id, other);
      TagsOfRows(id, other, newTags);
      EmptyAppend(newTags);
    }
    if other != id {
      TagsOfAppend(rem, add, other);
      TagsOfRemoved(tags, id, other);
      TagsOfRows(id, other, newTags);
      AppendEmpty(TagsOf(tags, other));
    }
  }

  /** Card ids are unique and below `nextId`; every tag row belongs to
      a card (the foreign key). */
  ghost predicate ValidState(cards: seq<CardRow>, tags: seq<TagRow>, nextId: int)
  {
    && DistinctIds(cards)
    && (forall x | x in CardIds(cards) :: x < nextId)
    && (forall k :: 0 <= k < |tags| ==> tags[k].flashcardId in CardIds(cards))
  }

  /** Inserting a card with the next id, with or without its tag rows,
      and only moving the next id on, all keep the store valid. */
  lemma CreateKeepsValid(cards: seq<CardRow>, tags: seq<TagRow>, nextId: int, row: CardRow, newTags: seq<string>)
    requires ValidState(cards, tags, nextId) && row.id == nextId
    ensures ValidState(cards, tags, nextId + 1)
    ensures ValidState(cards + [row], tags, nextId + 1)
    ensures ValidState(cards + [row], tags + TagRowsFor(row.id, newTags), nextId + 1)
  {
    CardIdsAppend(cards, row);
    var all := tags + TagRowsFor(row.id, newTags);
    forall k | 0 <= k < |all| ensures all[k].flashcardId in CardIds(cards + [row]) {
      if k >= |tags| {
        assert all[k] == TagRowsFor(row.id, newTags)[k - |tags|];
      }
    }
  }

  /** Updating a row keeps the store valid, and so do replacing the tag
      rows of an existing card and the delete step on its own. */
  lemma UpdateKeepsValid(cards: seq<CardRow>, tags: seq<TagRow>, nextId: int, userId: string, cmd: UpdateCommand)
    requires ValidState(cards, tags, nextId) && cmd.id in CardIds(cards)
    ensures ValidState(UpdateRows(cards, userId, cmd), tags, nextId)
    ensures ValidState(UpdateRows(cards, userId, cmd), RemoveTagsOf(tags, cmd.id), nextId)
    ensures ValidState(UpdateRows(cards, userId, cmd), RemoveTagsOf(tags, cmd.id) + TagRowsFor(cmd.id, cmd.tags), nextId)
  {
    UpdateKeepsIds(cards, userId, cmd);
    var rem := RemoveTagsOf(tags, cmd.id);
    var all := rem + TagRowsFor(cmd.id, cmd.tags);
    forall k | 0 <= k < |all| ensures all[k].flashcardId in CardIds(cards) {
      if k >= |rem| {
        assert all[k] == TagRowsFor(cmd.id, cmd.tags)[k - |rem|];
      } else {
        assert all[k] == rem[k];
        assert rem[k] in tags;
      }
    }
  }

  // ----------------------------------------------------------- the store

  class FlashcardStore {
    var cards: seq<CardRow>
    var tags: seq<TagRow>
    /** The id the next inserted card receives. */
    var nextId: int

    /** Card ids are unique and below `nextId`; every tag row belongs to
        a card (the foreign key). */
    ghost predicate Valid()
      reads this
    {
      ValidState(cards, tags, nextId)
    }

    constructor ()
      ensures Valid() && cards == [] && tags == []
    {
      cards, tags, nextId := [], [], 1;
    }

    /** `getFlashcard(userId, id)`: `Ok(None)` when no row of that user
        has the id; `fault` is another database error. */
    function GetFlashcard(userId: string, id: int, fault: Option<string>): (r: Result<Option<FlashcardDTO>>)
      reads this
      ensures fault.Some? ==> r == Err("Failed to fetch flashcard: " + fault.value)
      ensures fault.None? ==> r.Ok? && (r.value.Some? <==> FindCard(cards, userId, id).Some?)
      ensures fault.None? && r.value.Some? ==>
        r.value.value.id == id && r.value.value.userId == userId && r.value.value.tags == TagsOf(tags, id)
    {
      if fault.Some? then Err("Failed to fetch flashcard: " + fault.value)
      else
        var c := FindCard(cards, userId, id);
        if c.None? then Ok(None) else Ok(Some(ToDto(c.value, tags)))
    }

    /** The rows a list request selects before pagination. */
    function Selected(userId: string, filter: Option<seq<string>>): seq<CardRow>
      reads this
    {
      if filter.Some? && |filter.value| > 0 then
        var matching := MatchingTagRows(tags, OwnedIds(cards, userId), filter.value);
        QueryCards(cards, userId, Some(RowIds(matching)))
      else QueryCards(cards, userId, None)
    }

    /** `listFlashcards(userId, page, limit, tags)`. `tagFault` and
        `cardFault` are errors of the two queries. */
    function ListFlashcards(userId: string, page: int, limit: int, filter: Option<seq<string>>,
                            tagFault: Option<string>, cardFault: Option<string>): (r: Result<Page>)
      requires page >= 1 && limit >= 1
      reads this
      ensures r.Ok? ==> |r.value.data| <= limit
    {
      var offset := PageOffset(page, limit);
      if filter.Some? && |filter.value| > 0 && tagFault.Some? then
        Err("Failed to fetch flashcard IDs by tags: " + tagFault.value)
      else if filter.Some? && |filter.value| > 0 && MatchingTagRows(tags, OwnedIds(cards, userId), filter.value) == [] then
        Ok(Page([], 0))
      else if cardFault.Some? then Err("Failed to fetch flashcards: " + cardFault.value)
      else
        var rows := Selected(userId, filter);
        Ok(Page(ToDtos(Range(rows, offset, limit), tags), |rows|))
    }

    /** A non-empty filter that matches no tag row gives the empty page
        without the card query, so a fault of that query is never seen. */
    lemma ListWithoutMatches(userId: string, page: int, limit: int, filter: seq<string>, cardFault: Option<string>)
      requires page >= 1 && limit >= 1 && |filter| > 0
      requires MatchingTagRows(tags, OwnedIds(cards, userId), filter) == []
      ensures ListFlashcards(userId, page, limit, Some(filter), None, cardFault) == Ok(Page([], 0))
      ensures Selected(userId, Some(filter)) == []
    {
      var matching := MatchingTagRows(tags, OwnedIds(cards, userId), filter);
      assert RowIds(matching) == {};
      QueryNoIds(cards, userId);
    }

    /** What a successful list returns: the DTOs of the selected rows from
        offset (page - 1) * limit on, at most `limit` of them and fewer
        only at the end of the rows, each carrying exactly its card's
        tags, and the number of selected rows as total. It fails only on
        a fault of a query it makes. */
    lemma ListSpec(userId: string, page: int, limit: int, filter: Option<seq<string>>,
                   tagFault: Option<string>, cardFault: Option<string>)
      requires page >= 1 && limit >= 1
      ensures var r := ListFlashcards(userId, page, limit, filter, tagFault, cardFault);
        r.Ok? ==> r.value == ListPage(Selected(userId, filter), PageOffset(page, limit), limit)
      ensures var r := ListFlashcards(userId, page, limit, filter, tagFault, cardFault);
        r.Err? ==> (filter.Some? && |filter.value| > 0 && tagFault.Some?) || cardFault.Some?
    {
      if filter.Some? && |filter.value| > 0 && tagFault.None? && MatchingTagRows(tags, OwnedIds(cards, userId), filter.value) == [] {
        ListWithoutMatches(userId, page, limit, filter.value, cardFault);
        assert Range(Selected(userId, filter), PageOffset(page, limit), limit) == [];
      }
    }

    /** The page of a list request over the selected rows. */
    function ListPage(rows: seq<CardRow>, offset: nat, limit: nat): Page
      reads this
    {
      Page(ToDtos(Range(rows, offset, limit), tags), |rows|)
    }

    /** The page holds the DTOs of the rows from `offset` on, `limit` of
        them or fewer at the end of the rows, each carrying exactly its
        card's tags; the total counts every selected row. */
    lemma ListPageSpec(rows: seq<CardRow>, offset: nat, limit: nat)
      ensures var p := ListPage(rows, offset, limit);
        && p.total == |rows|
        && |p.data| <= limit
        && (offset < |rows| ==> |p.data| == (if offset + limit <= |rows| then limit else |rows| - offset))
        && (forall i :: 0 <= i < |p.data| ==>
              offset + i < |rows| && p.data[i] == ToDto(rows[offset + i], tags) && p.data[i].tags == TagsOf(tags, rows[offset + i].id))
    {
    }

    /** The filter is any-of: a card of the user is selected exactly when
        it has at least one tag row whose tag was requested; without a
        filter (or with an empty one) every card of the user is. */
    lemma SelectedAnyOf(userId: string, filter: Option<seq<string>>, c: CardRow)
      requires Valid()
      ensures c in Selected(userId, filter) <==>
        c in cards && c.userId == userId &&
        (filter.Some? && |filter.value| > 0 ==>
           exists k :: 0 <= k < |tags| && tags[k].flashcardId == c.id && tags[k].tag in filter.value)
    {
      if filter.Some? && |filter.value| > 0 {
        var owned := OwnedIds(cards, userId);
        var matching := MatchingTagRows(tags, owned, filter.value);
        QueryCardsMember(cards, userId, Some(RowIds(matching)), c);
        MatchingIdsSpec(tags, owned, filter.value, c.id);
        if c in cards && c.userId == userId {
          var i :| 0 <= i < |cards| && cards[i] == c;
          assert c.id in owned;
        }
      } else {
        QueryCardsMember(cards, userId, None, c);
      }
    }

    /** `createFlashcard(userId, command)`. The new row gets the next id,
        source "manual" and time stamps `now`. If the tag insert fails,
        the card is deleted again before the error is raised (unless that
        clean-up delete itself fails, whose result the source ignores);
        no tag insert is made for an empty tag list. The card is then read
        back with `getFlashcard`, whose fault `refetchFault` raises after
        the rows are written. */
    method CreateFlashcard(userId: string, cmd: CreateCommand, now: string,
                           insertFault: Option<string>, tagFault: Option<string>, cleanupFails: bool,
                           refetchFault: Option<string>)
      returns (r: Result<FlashcardDTO>)
      requires Valid()
      modifies this
      ensures Valid()
      ensures insertFault.Some? ==>
        r == Err("Failed to create flashcard: " + insertFault.value)
        && cards == old(cards) && tags == old(tags) && nextId == old(nextId)
      ensures insertFault.None? ==>
        var row := CardRow(old(nextId), userId, cmd.front, cmd.back, cmd.phonetic, "manual", now, now);
        && nextId == old(nextId) + 1
        && (cmd.tags != [] && tagFault.Some? ==>
              && r == Err("Failed to create tags: " + tagFault.value)
              && tags == old(tags)
              && cards == old(cards) + (if cleanupFails then [row] else []))
        && (cmd.tags == [] || tagFault.None? ==>
              && cards == old(cards) + [row]
              && tags == old(tags) + TagRowsFor(row.id, cmd.tags)
              && (refetchFault.Some? ==> r == Err("Failed to fetch flashcard: " + refetchFault.value))
              && (refetchFault.None? ==> r == Ok(ToDto(row, tags))))
      ensures r.Ok? ==>
        r.value.tags == cmd.tags && r.value.source == "manual" && r.value.userId == userId
        && r.value.front == cmd.front && r.value.back == cmd.back && r.value.phonetic == cmd.phonetic
    {
      if insertFault.Some? {
        r := Err("Failed to create flashcard: " + insertFault.value);
        return;
      }
      var row := CardRow(nextId, userId, cmd.front, cmd.back, cmd.phonetic, "manual", now, now);
      ghost var oldTags := tags;
      CreateKeepsValid(cards, tags, nextId, row, cmd.tags);
      CardIdsAppend(cards, row);
      cards := cards + [row];
      nextId := nextId + 1;
      if |cmd.tags| > 0 {
        if tagFault.Some? {
          if !cleanupFails {
            cards := RemoveCard(cards, row.id, None);
            assert cards == old(cards) by {
              RemoveFreshCard(old(cards), row);
            }
          }
          r := Err("Failed to create tags: " + tagFault.value);
          return;
        }
        tags := tags + TagRowsFor(row.id, cmd.tags);
      } else {
        assert TagRowsFor(row.id, cmd.tags) == [];
        tags := tags + TagRowsFor(row.id, cmd.tags);
      }
      if refetchFault.Some? {
        r := Err("Failed to fetch flashcard: " + refetchFault.value);
        return;
      }
      TagsOfFresh(oldTags, old(cards), row.id, cmd.tags);
      r := Ok(ToDto(row, tags));
    }

    /** `updateFlashcard(userId, command)`. A missing or foreign card (or a
        failed lookup) raises before any write; otherwise the row is
        updated, the card's tag rows are deleted and the new ones
        inserted, each step raising on its own fault without undoing the
        earlier ones; the closing read-back raises on `refetchFault`. */
    method UpdateFlashcard(userId: string, cmd: UpdateCommand, lookupFault: Option<string>,
                           updateFault: Option<string>, deleteTagsFault: Option<string>, insertTagsFault: Option<string>,
                           refetchFault: Option<string>)
      returns (r: Result<FlashcardDTO>)
      requires Valid()
      modifies this
      ensures Valid() && nextId == old(nextId)
      ensures lookupFault.Some? ==>
        r == Err("Failed to fetch flashcard: " + lookupFault.value) && cards == old(cards) && tags == old(tags)
      ensures lookupFault.None? && FindCard(old(cards), userId, cmd.id).None? ==>
        r == Err(NotFound) && cards == old(cards) && tags == old(tags)
      ensures lookupFault.None? && FindCard(old(cards), userId, cmd.id).Some? ==>
        && (updateFault.Some? ==>
              r == Err("Failed to update flashcard: " + updateFault.value) && cards == old(cards) && tags == old(tags))
        && (updateFault.None? ==> cards == UpdateRows(old(cards), userId, cmd))
        && (updateFault.None? && deleteTagsFault.Some? ==>
              r == Err("Failed to update tags: " + deleteTagsFault.value) && tags == old(tags))
        && (updateFault.None? && deleteTagsFault.None? && cmd.tags != [] && insertTagsFault.Some? ==>
              r == Err("Failed to update tags: " + insertTagsFault.value) && tags == RemoveTagsOf(old(tags), cmd.id))
        && (updateFault.None? && deleteTagsFault.None? && (cmd.tags == [] || insertTagsFault.None?) ==>
              && tags == RemoveTagsOf(old(tags), cmd.id) + TagRowsFor(cmd.id, cmd.tags)
              && (refetchFault.Some? ==> r == Err("Failed to fetch flashcard: " + refetchFault.value))
              && (refetchFault.None? ==> r == Ok(ToDto(Patch(FindCard(old(cards), userId, cmd.id).value, cmd), tags))))
      ensures r.Ok? ==> r.value.tags == cmd.tags && r.value.id == cmd.id && r.value.front == cmd.front && r.value.back == cmd.back
      ensures forall other :: other != cmd.id ==> TagsOf(tags, other) == TagsOf(old(tags), other)
    {
      var existing := GetFlashcard(userId, cmd.id, lookupFault);
      if existing.Err? {
        r := Err(existing.message);
        return;
      }
      if existing.value.None? {
        r := Err(NotFound);
        return;
      }
      if updateFault.Some? {
        r := Err("Failed to update flashcard: " + updateFault.value);
        return;
      }
      var row := FindCard(cards, userId, cmd.id);
      UpdateKeepsValid(cards, tags, nextId, userId, cmd);
      UpdateKeepsIds(cards, userId, cmd);
      cards := UpdateRows(cards, userId, cmd);
      if deleteTagsFault.Some? {
        r := Err("Failed to update tags: " + deleteTagsFault.value);
        return;
      }
      tags := RemoveTagsOf(tags, cmd.id);
      forall other | other != cmd.id ensures TagsOf(tags, other) == TagsOf(old(tags), other) {
        TagsOfRemoved(old(tags), cmd.id, other);
      }
      if |cmd.tags| > 0 {
        if insertTagsFault.Some? {
          r := Err("Failed to update tags: " + insertTagsFault.value);
          return;
        }
      }
      ghost var removed := tags;
      tags := tags + TagRowsFor(cmd.id, cmd.tags);
      forall other | other != cmd.id ensures TagsOf(tags, other) == TagsOf(old(tags), other) {
        TagReplacement(old(tags), cmd.id, cmd.tags, other);
      }
      TagReplacement(old(tags), cmd.id, cmd.tags, cmd.id);
      if refetchFault.Some? {
        r := Err("Failed to fetch flashcard: " + refetchFault.value);
        return;
      }
      r := Ok(ToDto(Patch(row.value, cmd), tags));
    }

    /** `deleteFlashcard(userId, id)`: a missing or foreign card raises
        before any write; otherwise the row goes and its tag rows with it
        (the foreign key cascades). */
    method DeleteFlashcard(userId: string, id: int, lookupFault: Option<string>, deleteFault: Option<string>)
      returns (r: Result<()>)
      requires Valid()
      modifies this
      ensures Valid() && nextId == old(nextId)
      ensures lookupFault.Some? ==>
        r == Err("Failed to fetch flashcard: " + lookupFault.value) && cards == old(cards) && tags == old(tags)
      ensures lookupFault.None? && FindCard(old(cards), userId, id).None? ==>
        r == Err(NotFound) && cards == old(cards) && tags == old(tags)
      ensures lookupFault.None? && FindCard(old(cards), userId, id).Some? && deleteFault.Some? ==>
        r == Err("Failed to delete flashcard: " + deleteFault.value) && cards == old(cards) && tags == old(tags)
      ensures lookupFault.None? && FindCard(old(cards), userId, id).Some? && deleteFault.None? ==>
        && r == Ok(())
        && cards == RemoveCard(old(cards), id, Some(userId))
        && tags == RemoveTagsOf(old(tags), id)
        && FindCard(cards, userId, id).None?
    {
      var existing := GetFlashcard(userId, id, lookupFault);
      if existing.Err? {
        r := Err(existing.message);
        return;
      }
      if existing.value.None? {
        r := Err(NotFound);
        return;
      }
      if deleteFault.Some? {
        r := Err("Failed to delete flashcard: " + deleteFault.value);
        return;
      }
      RemoveCardProps(cards, id, Some(userId));
      RemoveOwnedCard(cards, userId, id);
      cards := RemoveCard(cards, id, Some(userId));
      tags := RemoveTagsOf(tags, id);
      r := Ok(());
    }
  }

  // -------------------------------------------- helpers for the store

  function CardIds(cards: seq<CardRow>): set<int>
  {
    if cards == [] then {} else {cards[0].id} + CardIds(cards[1..])
  }

  predicate DistinctIds(cards: seq<CardRow>)
  {
    cards == [] || (cards[0].id !in CardIds(cards[1..]) && DistinctIds(cards[1..]))
  }

  lemma {:induction false} QueryNoIds(cards: seq<CardRow>, userId: string)
    ensures QueryCards(cards, userId, Some({})) == []
  {
    if cards != [] {
      QueryNoIds(cards[1..], userId);
    }
  }

  lemma {:induction false} CardIdsAppend(cards: seq<CardRow>, row: CardRow)
    ensures CardIds(cards + [row]) == CardIds(cards) + {row.id}
    ensures DistinctIds(cards) && row.id !in CardIds(cards) ==> DistinctIds(cards + [row])
  {
    if cards != [] {
      assert (cards + [row])[1..] == cards[1..] + [row];
      CardIdsAppend(cards[1..], row);
    } else {
      assert (cards + [row])[1..] == [];
    }
  }

  lemma {:induction false} RemoveFreshCard(cards: seq<CardRow>, row: CardRow)
    requires row.id !in CardIds(cards)
    ensures RemoveCard(cards + [row], row.id, None) == cards
  {
    var c := cards + [row];
    if cards == [] {
      assert c[1..] == [];
    } else {
      assert c[0] == cards[0] && c[1..] == cards[1..] + [row];
      RemoveFreshCard(cards[1..], row);
      HeadTail(cards);
    }
  }

  /** Tag rows that all belong to existing cards say nothing about a
      fresh id, so the fresh card's tags are exactly the inserted ones. */
  lemma TagsOfFresh(oldTags: seq<TagRow>, cards: seq<CardRow>, id: int, newTags: seq<string>)
    requires forall k :: 0 <= k < |oldTags| ==> oldTags[k].flashcardId in CardIds(cards)
    requires id !in CardIds(cards)
    ensures TagsOf(oldTags + TagRowsFor(id, newTags), id) == newTags
  {
    TagsOfAbsent(oldTags, id);
    TagsOfAppend(oldTags, TagRowsFor(id, newTags), id);
    TagsOfRows(id, id, newTags);
  }

  lemma {:induction false} UpdateKeepsIds(cards: seq<CardRow>, userId: string, cmd: UpdateCommand)
    ensures CardIds(UpdateRows(cards, userId, cmd)) == CardIds(cards)
    ensures DistinctIds(UpdateRows(cards, userId, cmd)) == DistinctIds(cards)
  {
    if cards != [] {
      UpdateKeepsIds(cards[1..], userId, cmd);
      var r := UpdateRows(cards, userId, cmd);
      assert r[1..] == UpdateRows(cards[1..], userId, cmd);
      assert r[0].id == cards[0].id;
    }
  }

  /** Deleting rows keeps the remaining ids distinct, invents no id, and
      keeps every id other than the deleted one. */
  lemma {:induction false} RemoveCardProps(cards: seq<CardRow>, id: int, userId: Option<string>)
    ensures CardIds(RemoveCard(cards, id, userId)) <= CardIds(cards)
    ensures CardIds(cards) - {id} <= CardIds(RemoveCard(cards, id, userId))
    ensures DistinctIds(cards) ==> DistinctIds(RemoveCard(cards, id, userId))
  {
    if cards != [] {
      RemoveCardProps(cards[1..], id, userId);
      var rest := RemoveCard(cards[1..], id, userId);
      var r := RemoveCard(cards, id, userId);
      if !(cards[0].id == id && (userId.Some? ==> cards[0].userId == userId.value)) {
        assert r == [cards[0]] + rest;
        assert r[0] == cards[0] && r[1..] == rest;
        assert CardIds(r) == {cards[0].id} + CardIds(rest);
      } else {
        assert r == rest;
      }
    }
  }

  lemma {:induction false} RemoveOwnedCard(cards: seq<CardRow>, userId: string, id: int)
    ensures FindCard(RemoveCard(cards, id, Some(userId)), userId, id).None?
  {
    if cards != [] {
      RemoveOwnedCard(cards[1..], userId, id);
      var rest := RemoveCard(cards[1..], id, Some(userId));
      if !(cards[0].id == id && cards[0].userId == userId) {
        var r := RemoveCard(cards, id, Some(userId));
        assert r == [cards[0]] + rest;
        assert r[1..] == rest;
      }
    }
  }
}
