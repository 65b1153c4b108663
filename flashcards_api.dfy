/** The `GET` and `POST /api/flashcards` endpoints: the query and body
    schemas and the status of each outcome. The service calls are
    parameters; `Err` means they threw. */
module FlashcardsApi {
  import opened Common
  import opened Types
  import FlashcardService

  /** `Number(s)` as far as it is modelled: an optionally signed run of
      decimal digits, or blank text (which is 0). Everything else counts
      as not an integer (see README). */
  datatype NumValue = Integral(n: int) | NotInteger

  function JsNumber(s: string): NumValue
  {
    TextNumber(Trim(s))
  }

  /** `Number` of text that has already been trimmed. */
  function TextNumber(t: string): NumValue
  {
    if t == "" then Integral(0)
    else if t[0] == '-' || t[0] == '+' then
      var v := DecimalValue(t[1..]);
      if v.None? then NotInteger
      else
        var n: int := v.value;
        Integral(if t[0] == '-' then -n else n)
    else
      var v := DecimalValue(t);
      if v.None? then NotInteger else Integral(v.value)
  }

  /** The value of a non-empty run of decimal digits. */
  function DecimalValue(s: string): Option<nat>
  {
    if s != [] && DigitPrefixLength(s) == |s| then Some(DigitsValue(s)) else None
  }

  lemma TrimDigits(d: string)
    requires d != [] && forall i :: 0 <= i < |d| ==> '0' <= d[i] <= '9'
    ensures Trim(d) == d
  {
    assert !IsSpace(d[0]) && !IsSpace(d[|d| - 1]);
    TrimSpacedPrefix("", d);
    assert "" + d == d;
  }

  lemma JsNumberOfDigitString(d: string)
    requires d != [] && forall i :: 0 <= i < |d| ==> '0' <= d[i] <= '9'
    ensures JsNumber(d) == Integral(DigitsValue(d))
  {
    TrimDigits(d);
    TextNumberOfDigits(d);
  }

  lemma TextNumberOfDigits(d: string)
    requires d != [] && forall i :: 0 <= i < |d| ==> '0' <= d[i] <= '9'
    ensures TextNumber(d) == Integral(DigitsValue(d))
  {
    DecimalOfDigits(d);
    assert '0' <= d[0] <= '9';
  }

  lemma DecimalOfDigits(d: string)
    requires d != [] && forall i :: 0 <= i < |d| ==> '0' <= d[i] <= '9'
    ensures DecimalValue(d) == Some(DigitsValue(d))
  {
    DigitPrefixOf(d, []);
    assert d + [] == d;
  }

  lemma JsNumberOfDigits(n: nat)
    ensures JsNumber(NatToString(n)) == Integral(n)
  {
    JsNumberOfDigitString(NatToString(n));
    NatToStringValue(n);
  }

  datatype ListQuery = ListQuery(page: int, limit: int, tags: Option<seq<string>>)

  /** `z.coerce.number().int().positive()` with a default, and an upper
      bound when `max` is given. */
  function CoercePositive(raw: Option<string>, default: int, max: Option<int>): Result<int>
  {
    if raw.None? then Ok(default)
    else match JsNumber(raw.value)
      case NotInteger => Err(InvalidQuery)
      case Integral(n) =>
        if n <= 0 || (max.Some? && n > max.value) then Err(InvalidQuery) else Ok(n)
  }

  const InvalidQuery: string := "Invalid query parameters"
  const InvalidBody: string := "Invalid request body"
  const InternalError: string := "Internal server error"

  /** `listFlashcardsQuerySchema.safeParse` applied to the search
      parameters (the last value of a repeated key). */
  function ParseListQuery(params: map<string, string>): Result<ListQuery>
  {
    var page := CoercePositive(if "page" in params then Some(params["page"]) else None, 1, None);
    var limit := CoercePositive(if "limit" in params then Some(params["limit"]) else None, 20, Some(100));
    var tags := if "tags" in params && params["tags"] != "" then Some(Split(params["tags"], ',')) else None;
    if page.Err? || limit.Err? then Err(InvalidQuery)
    else Ok(ListQuery(page.value, limit.value, tags))
  }

  /** Absent page and limit default to 1 and 20; present ones must be
      positive integers, the limit at most 100; a present, non-empty
      `tags` value is split on ','. */
  lemma ListQuerySpec(params: map<string, string>)
    ensures var q := ParseListQuery(params);
      && ("page" !in params && "limit" !in params ==> q.Ok? && q.value.page == 1 && q.value.limit == 20)
      && (q.Ok? ==> q.value.page >= 1 && 1 <= q.value.limit <= 100)
      && (q.Ok? && "page" in params ==> JsNumber(params["page"]) == Integral(q.value.page))
      && (q.Ok? && "limit" in params ==> JsNumber(params["limit"]) == Integral(q.value.limit))
      && (q.Ok? ==> (q.value.tags.None? <==> "tags" !in params || params["tags"] == ""))
      && (q.Ok? && q.value.tags.Some? ==> q.value.tags.value == Split(params["tags"], ','))
  {
  }

  /** A query with only a non-empty `tags` value uses the default page
      and limit and filters by the split value. */
  lemma TagsOnlyQuery(value: string)
    requires value != ""
    ensures ParseListQuery(map["tags" := value]) == Ok(ListQuery(1, 20, Some(Split(value, ','))))
  {
    var m := map["tags" := value];
    assert "page" !in m && "limit" !in m;
  }

  /** Page "0" is refused. */
  lemma ZeroPageRefused()
    ensures ParseListQuery(map["page" := "0"]).Err?
  {
    JsNumberOfDigitString("0");
    assert CoercePositive(Some("0"), 1, None).Err?;
  }

  /** Limit "101" is refused. */
  lemma LimitAboveMaximumRefused()
    ensures ParseListQuery(map["limit" := "101"]).Err?
  {
    LimitOnlyQuery("101");
    assert CoercePositive(Some("101"), 20, Some(100)).Err? by {
      JsNumber101();
    }
  }

  lemma JsNumber101()
    ensures JsNumber("101") == Integral(101)
  {
    JsNumberOfDigitString("101");
    DigitsValue101();
  }

  lemma DigitsValue101()
    ensures DigitsValue("101") == 101
  {
    assert "101"[..2] == "10";
    assert "10"[..1] == "1";
    assert "1"[..0] == "";
  }

  /** A query with only a `limit` value: the default page, no tag filter. */
  lemma LimitOnlyQuery(v: string)
    ensures var limit := CoercePositive(Some(v), 20, Some(100));
      ParseListQuery(map["limit" := v])
        == if limit.Ok? then Ok(ListQuery(1, limit.value, None)) else Err(InvalidQuery)
  {
    var m := map["limit" := v];
    assert "page" !in m && "tags" !in m && m["limit"] == v;
  }

  /** Limit "100" is accepted with the default page. */
  lemma LimitAtMaximumAccepted()
    ensures ParseListQuery(map["limit" := "100"]) == Ok(ListQuery(1, 100, None))
  {
    LimitOnlyQuery("100");
    assert CoercePositive(Some("100"), 20, Some(100)) == Ok(100) by {
      JsNumber100();
    }
  }

  lemma JsNumber100()
    ensures JsNumber("100") == Integral(100)
  {
    JsNumberOfDigitString("100");
    DigitsValue100();
  }

  lemma DigitsValue100()
    ensures DigitsValue("100") == 100
  {
    assert "100"[..2] == "10";
    assert "10"[..1] == "1";
    assert "1"[..0] == "";
  }

  /** Text that is not a number is refused. */
  lemma NonNumericLimit()
    ensures ParseListQuery(map["limit" := "abc"]).Err?
  {
    LimitOnlyQuery("abc");
    assert CoercePositive(Some("abc"), 20, Some(100)).Err? by {
      JsNumberAbc();
    }
  }

  lemma JsNumberAbc()
    ensures JsNumber("abc") == NotInteger
  {
    TrimAbc();
    assert DigitPrefixLength("abc") == 0;
  }

  lemma TrimAbc()
    ensures Trim("abc") == "abc"
  {
    assert !IsSpace('a') && !IsSpace('c');
    TrimSpacedPrefix("", "abc");
    assert "" + "abc" == "abc";
  }

  datatype Body =
    | ErrorBody(error: string)
    | ListBody(page: FlashcardService.Page)
    | CardBody(card: FlashcardDTO)

  datatype Response = Response(status: int, body: Body)

  /** `GET(request)`; `url` is `None` when building the URL threw. */
  function GetList(params: Option<map<string, string>>, list: ListQuery -> Result<FlashcardService.Page>): Response
  {
    if params.None? then Response(500, ErrorBody(InternalError))
    else
      var q := ParseListQuery(params.value);
      if q.Err? then Response(400, ErrorBody(InvalidQuery))
      else
        var result := list(q.value);
        if result.Err? then Response(500, ErrorBody(InternalError)) else Response(200, ListBody(result.value))
  }

  lemma GetListStatus(params: Option<map<string, string>>, list: ListQuery -> Result<FlashcardService.Page>)
    ensures var r := GetList(params, list);
      && (r.status == 200 <==> params.Some? && ParseListQuery(params.value).Ok? && list(ParseListQuery(params.value).value).Ok?)
      && (r.status == 200 ==> r.body == ListBody(list(ParseListQuery(params.value).value).value))
      && (r.status == 400 <==> params.Some? && ParseListQuery(params.value).Err?)
      && (r.status == 400 ==> r.body == ErrorBody(InvalidQuery))
      && (r.status in {200, 400, 500})
  {
  }

  /** `createFlashcardSchema.safeParse(body)`. */
  function CreateSchema(body: Json): Result<CreateCommand>
  {
    if !body.JObject? then Err(InvalidBody)
    else
      var front := Get(body, "front");
      var back := Get(body, "back");
      var phonetic := Get(body, "phonetic");
      var tags := Get(body, "tags");
      if !(front.JStr? && |front.s| >= 1) || !(back.JStr? && |back.s| >= 1) then Err(InvalidBody)
      else if !(phonetic.JUndefined? || phonetic.JNull? || phonetic.JStr?) then Err(InvalidBody)
      else if !tags.JArray? || |tags.items| > 4 || !AllStrings(tags.items) then Err(InvalidBody)
      else Ok(CreateCommand(front.s, back.s, if phonetic.JStr? then Some(phonetic.s) else None, Strings(tags.items)))
  }

  predicate AllStrings(items: seq<Json>)
  {
    forall i :: 0 <= i < |items| ==> items[i].JStr?
  }

  function Strings(items: seq<Json>): (r: seq<string>)
    requires AllStrings(items)
    ensures |r| == |items| && forall i :: 0 <= i < |r| ==> items[i] == JStr(r[i])
  {
    if items == [] then [] else [items[0].s] + Strings(items[1..])
  }

  /** A body passes exactly when it is an object whose front and back are
      non-empty strings (white space counts, nothing is trimmed), whose
      phonetic is absent, null or a string, and whose tags are an array
      of at most four strings; the command then carries those values. */
  lemma CreateSchemaSpec(body: Json)
    ensures var r := CreateSchema(body);
      && (r.Ok? <==>
            body.JObject?
            && Get(body, "front").JStr? && |Get(body, "front").s| >= 1
            && Get(body, "back").JStr? && |Get(body, "back").s| >= 1
            && (Get(body, "phonetic").JUndefined? || Get(body, "phonetic").JNull? || Get(body, "phonetic").JStr?)
            && Get(body, "tags").JArray? && |Get(body, "tags").items| <= 4 && AllStrings(Get(body, "tags").items))
      && (r.Ok? ==>
            && JStr(r.value.front) == Get(body, "front") && JStr(r.value.back) == Get(body, "back")
            && |r.value.tags| <= 4
            && (r.value.phonetic.Some? <==> Get(body, "phonetic").JStr?)
            && (forall i :: 0 <= i < |r.value.tags| ==> Get(body, "tags").items[i] == JStr(r.value.tags[i])))
      && (r.Err? ==> r.message == InvalidBody)
  {
  }

  /** A blank front is accepted by the API, unlike by the forms. */
  lemma BlankFrontAccepted()
    ensures CreateSchema(JObject(map["front" := JStr(" "), "back" := JStr("b"), "tags" := JArray([])])).Ok?
  {
  }

  /** `POST(request)`; `body` is `None` when `request.json()` threw. */
  function PostCard(body: Option<Json>, create: CreateCommand -> Result<FlashcardDTO>): Response
  {
    if body.None? then Response(500, ErrorBody(InternalError))
    else
      var cmd := CreateSchema(body.value);
      if cmd.Err? then Response(400, ErrorBody(InvalidBody))
      else
        var result := create(cmd.value);
        if result.Err? then Response(500, ErrorBody(InternalError)) else Response(201, CardBody(result.value))
  }

  lemma PostCardStatus(body: Option<Json>, create: CreateCommand -> Result<FlashcardDTO>)
    ensures var r := PostCard(body, create);
      && (r.status == 201 <==> body.Some? && CreateSchema(body.value).Ok? && create(CreateSchema(body.value).value).Ok?)
      && (r.status == 201 ==> r.body == CardBody(create(CreateSchema(body.value).value).value))
      && (r.status == 400 <==> body.Some? && CreateSchema(body.value).Err?)
      && (r.status in {201, 400, 500})
  {
  }
}
