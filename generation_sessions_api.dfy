/** The `POST /api/generation-sessions` endpoint: the checks on the
    uploaded form field and the status of each outcome. The generation
    service is a parameter; `Err` means it threw. */
module GenerationSessionsApi {
  import opened Common
  import Generation

  /** What `formData.get("image")` returns. */
  datatype FormValue = Missing | TextValue(text: string) | FileValue(file: FileInfo)

  datatype Body =
    | ErrorBody(error: string)
    | ValidationBody(error: string, details: seq<string>)
    | SessionBody(session: Generation.GenerationSession)

  datatype Response = Response(status: int, body: Body)

  const NotAFileMessage: string := "Input not instance of File"
  const TypeIssue: string := "Only JPEG and PNG images are supported"
  const SizeIssue: string := "Image size must be less than 10MB"

  /** The issues `GenerateFlashcardsSchema.safeParse` reports, in order:
      a value that is not a file fails `instanceof`; a file is checked by
      both refinements, each adding its own issue. */
  function SchemaIssues(v: FormValue): seq<string>
  {
    match v
    case Missing => [NotAFileMessage]
    case TextValue(_) => [NotAFileMessage]
    case FileValue(f) =>
      (if f.mimeType == "image/jpeg" || f.mimeType == "image/png" then [] else [TypeIssue])
      + (if f.size <= MaxImageBytes then [] else [SizeIssue])
  }

  /** `!imageFile`: no field, or an empty text field (a file object is
      always truthy). */
  predicate Absent(v: FormValue)
  {
    v.Missing? || (v.TextValue? && v.text == "")
  }

  /** `POST(request)`. `form` is `None` when reading the form data threw. */
  function Post(form: Option<FormValue>, generate: FileInfo -> Result<Generation.GenerationSession>): Response
  {
    if form.None? then Response(500, ErrorBody("Internal server error"))
    else if Absent(form.value) then Response(400, ErrorBody("Image file is required"))
    else
      var issues := SchemaIssues(form.value);
      if issues != [] then Response(400, ValidationBody("Validation failed", issues))
      else
        var result := generate(form.value.file);
        if result.Err? then Response(500, ErrorBody("Internal server error"))
        else Response(201, SessionBody(result.value))
  }

  /** Status decisions: 400 for a missing image or a failed schema check,
      500 when anything throws, and 201 with the service's result
      otherwise, including a result that carries errors. A file passes the
      schema exactly when it is JPEG or PNG of at most 10 MiB. */
  lemma PostStatus(form: Option<FormValue>, generate: FileInfo -> Result<Generation.GenerationSession>)
    ensures var r := Post(form, generate);
      && (form.None? ==> r == Response(500, ErrorBody("Internal server error")))
      && (form.Some? && Absent(form.value) ==> r == Response(400, ErrorBody("Image file is required")))
      && (form.Some? && form.value.TextValue? && form.value.text != "" ==>
            r == Response(400, ValidationBody("Validation failed", [NotAFileMessage])))
      && (form.Some? && form.value.FileValue? ==>
            var f := form.value.file;
            && (SchemaIssues(form.value) == [] <==>
                  (f.mimeType == "image/jpeg" || f.mimeType == "image/png") && f.size <= MaxImageBytes)
            && (SchemaIssues(form.value) != [] ==> r.status == 400 && r.body.error == "Validation failed")
            && (SchemaIssues(form.value) == [] && generate(f).Err? ==> r == Response(500, ErrorBody("Internal server error")))
            && (SchemaIssues(form.value) == [] && generate(f).Ok? ==> r == Response(201, SessionBody(generate(f).value))))
  {
  }

  /** A file with a bad type and a bad size reports both issues, the type
      first. */
  lemma BothIssuesReported(f: FileInfo)
    requires f.mimeType != "image/jpeg" && f.mimeType != "image/png" && f.size > MaxImageBytes
    ensures SchemaIssues(FileValue(f)) == [TypeIssue, SizeIssue]
  {
  }
}
