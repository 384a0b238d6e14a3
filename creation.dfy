/**
 * Quiz creation input: the two request encodings, their normalisation into
 * one draft, and the validation every draft goes through before insertion.
 */
module Creation {
  import opened Quizzes
  import opened FormOptions

  /** The fields of a JSON body, already parsed (`int(...)`, `datetime.fromisoformat(...)`). */
  datatype JsonFields = JsonFields(
    question: string,
    options: seq<string>,
    rightAnswer: int,
    startDate: int,
    endDate: int)

  /** A form field that must be parsed: submitted empty, or holding a parsed value. */
  datatype FormField = Blank | Entered(value: int)

  /** The fields of a form-encoded body; `options` is None when the form has no such field. */
  datatype FormFields = FormFields(
    question: string,
    options: Option<string>,
    rightAnswer: FormField,
    startDate: FormField,
    endDate: FormField)

  /**
   * A creation request: its Content-Type header, the JSON body as
   * `request.get_json()` gives it (None for a JSON `null`) and the form view.
   */
  datatype Request = Request(contentType: string, json: Option<JsonFields>, form: FormFields)

  const JsonContentType := "application/json"
  const FormContentType := "application/x-www-form-urlencoded"

  /** The normalised creation input both encodings produce. */
  datatype Draft = Draft(
    question: string,
    options: seq<string>,
    rightAnswer: int,
    startDate: int,
    endDate: int)

  /** `str(request.form.get('options'))`: a missing field becomes the text "None". */
  function OptionsText(field: Option<string>): string {
    match field
    case Some(s) => s
    case None => "None"
  }

  /** The content-type dispatch and the per-encoding presence checks. */
  function Normalize(req: Request): (r: Result<Draft>)
    ensures req.contentType != JsonContentType && req.contentType != FormContentType ==>
              r == Err(BadRequest(UnsupportedMessage))
    ensures req.contentType == JsonContentType ==>
              (r.Ok? <==> req.json.Some?) &&
              (r.Err? ==> r.error == BadRequest(JsonExpectedMessage))
    ensures req.contentType == FormContentType ==>
              (r.Ok? <==> req.form.rightAnswer.Entered? && req.form.startDate.Entered? && req.form.endDate.Entered?) &&
              (r.Err? ==> r.error == BadRequest(MissingDataMessage))
    ensures r.Ok? && req.contentType == JsonContentType ==>
              var j := req.json.value;
              r.value == Draft(j.question, j.options, j.rightAnswer, j.startDate, j.endDate)
    ensures r.Ok? && req.contentType == FormContentType ==>
              var f := req.form;
              r.value == Draft(f.question, ParseOptions(OptionsText(f.options)),
                               f.rightAnswer.value, f.startDate.value, f.endDate.value)
  {
    if req.contentType == JsonContentType then
      match req.json
      case None => Err(BadRequest(JsonExpectedMessage))
      case Some(d) => Ok(Draft(d.question, d.options, d.rightAnswer, d.startDate, d.endDate))
    else if req.contentType == FormContentType then
      var f := req.form;
      if f.rightAnswer.Blank? || f.startDate.Blank? || f.endDate.Blank? then
        Err(BadRequest(MissingDataMessage))
      else
        Ok(Draft(f.question, ParseOptions(OptionsText(f.options)),
                 f.rightAnswer.value, f.startDate.value, f.endDate.value))
    else
      Err(BadRequest(UnsupportedMessage))
  }

  /** The two checks of a draft, in the source's order: answer index first, then dates. */
  function Validate(d: Draft): (r: Result<Draft>)
    ensures r.Ok? <==> 1 <= d.rightAnswer <= |d.options| && d.startDate < d.endDate
    ensures r.Ok? ==> r.value == d
    ensures (d.rightAnswer < 1 || d.rightAnswer > |d.options|) ==> r == Err(BadRequest(InvalidIndexMessage))
    ensures 1 <= d.rightAnswer <= |d.options| && d.startDate >= d.endDate ==> r == Err(BadRequest(DateOrderMessage))
  {
    if d.rightAnswer < 1 || d.rightAnswer > |d.options| then Err(BadRequest(InvalidIndexMessage))
    else if d.startDate >= d.endDate then Err(BadRequest(DateOrderMessage))
    else Ok(d)
  }

  /** A request's draft once it has passed both normalisation and validation. */
  function CheckCreate(req: Request): (r: Result<Draft>)
    ensures r.Ok? ==> 1 <= r.value.rightAnswer <= |r.value.options| && r.value.startDate < r.value.endDate
    ensures r.Ok? ==> Normalize(req) == Ok(r.value)
    ensures Normalize(req).Err? ==> r == Normalize(req)
    ensures Normalize(req).Ok? ==>
              var d := Normalize(req).value;
              && (r.Ok? <==> 1 <= d.rightAnswer <= |d.options| && d.startDate < d.endDate)
              && (d.rightAnswer < 1 || d.rightAnswer > |d.options| ==> r == Err(BadRequest(InvalidIndexMessage)))
              && (1 <= d.rightAnswer <= |d.options| && d.startDate >= d.endDate ==> r == Err(BadRequest(DateOrderMessage)))
  {
    match Normalize(req)
    case Err(e) => Err(e)
    case Ok(d) => Validate(d)
  }

  /** The record a validated draft is stored as: `Quiz(...)` starts with `status = False`. */
  function NewQuiz(id: ObjectId, d: Draft): (q: Quiz)
    requires 1 <= d.rightAnswer <= |d.options| && d.startDate < d.endDate
    ensures WellFormed(q) && !q.status && q.id == id
  {
    Quiz(id, d.question, d.options, d.rightAnswer, d.startDate, d.endDate, false)
  }
}
