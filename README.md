# Timed quiz service — a Dafny model

The service stores quizzes in a MongoDB collection and serves four HTTP
endpoints. `POST /quizzes` creates a quiz from a JSON or form-encoded body.
`GET /quizzes/active` lists the quizzes whose window contains the current
instant. `GET /quizzes/<id>/result` discloses a quiz's right answer five
minutes after its end. `GET /quizzes/all` lists every quiz. A background job
runs every minute and recomputes each quiz's cached `status` flag with two
bulk updates.

This project models that core in Dafny:

- `quiz.dfy` (module `Quizzes`): the stored document `Quiz`, and `ObjectId` as
  the 24 lower-case hexadecimal digits `str(oid)` prints. `ParseId` is what
  `ObjectId(s)` accepts. The file also holds the collection invariant
  `WellFormedStore` and the error outcomes with their exact messages.
- `options.dfy` (module `FormOptions`): a form's options field.
  `str.split(',')` becomes `Split`. `str.strip()` becomes `Strip`, over the
  full `str.isspace` character set. `ParseOptions` combines them.
- `creation.dfy` (module `Creation`): the content-type dispatch and the
  per-encoding presence checks (`Normalize`), then the two validations in the
  source's order (`Validate`, `CheckCreate`). `NewQuiz` builds the record
  inserted with `status = False`.
- `reconciler.dfy` (module `Reconciler`): one `update_many` as
  `SetStatusWhere`. The two ordered updates of a run equal the per-quiz rule
  `Reconciled`. The file proves idempotence, catch-up after missed runs, and
  that the order of the two updates matters.
- `queries.dfy` (module `Queries`): the active and full listings with their
  projection, the `find_one` lookup, and `get_quiz_result` with its error
  order: 400, then 404, then 403, then the answer.
- `store.dfy` (module `Store`): the class `QuizStore`. Its field `docs` is
  the collection in insertion order. `CreateQuiz` appends a record.
  `UpdateMany` loops over the documents, and `UpdateQuizStatus` runs
  `UpdateMany` twice. Each method is proved against the functions above.
- `scenarios.dfy` (module `Scenarios`): worked examples on concrete requests
  and times. `ActiveWindowScenario` drives a `QuizStore` through a quiz's
  window with assertions and has no `ensures` of its own.

Times are whole seconds (`int`). `datetime.now()` is the parameter `now`. The
id the store assigns on insert is the parameter `newId`, which must not
already be in the collection (MongoDB's unique `_id` index).

Three behaviours of the code worth noting:

- The status job sets `status` to false at `now == end_date`, since its end
  filter is `end_date <= now`. The active listing still includes that instant,
  since its filter is `end_date >= now`. `Reconciler.FreshQuizStatus` states
  this mismatch.
- The code does not check that a quiz has at least two options. It also does
  not check that the question is non-empty. The only checks are on the
  answer index and the date order.
- A form without an `options` field is not rejected. `str(None)` makes the
  options `["None"]`, as `Scenarios.MissingOptionsScenario` shows.

## Model

| member | source | states |
|---|---|---|
| `FormOptions.StripLeft` | app.py:94 | the result is a suffix of the input, everything removed is whitespace, and the result does not start with whitespace |
| `FormOptions.StripRight` | app.py:94 | the result is a prefix of the input, everything removed is whitespace, and the result does not end with whitespace |
| `FormOptions.Strip` | app.py:94 | the result has no whitespace at either edge and is the input with only a whitespace prefix and a whitespace suffix removed |
| `FormOptions.TrimmedUnique` | app.py:94 | at most one string is the input with edge whitespace removed and no edge whitespace left, so `Strip`'s contract fixes its result |
| `FormOptions.StripOfTrimmed` | app.py:94 | stripping a string with no edge whitespace returns it unchanged |
| `FormOptions.Split` | app.py:94 | `s.split(sep)` has one more piece than `sep` occurs in `s`, no piece contains `sep`, and joining the pieces with `sep` gives `s` back |
| `FormOptions.SplitCons` | app.py:94 | a separator-free prefix followed by a separator becomes the first piece, and the rest splits on its own |
| `FormOptions.SplitSingle` | app.py:94 | a separator-free string splits into exactly itself |
| `FormOptions.SplitJoin` | app.py:94 | splitting a join of separator-free pieces gives those pieces back |
| `FormOptions.ParseOptions` | app.py:94 | the options field yields one option per comma plus one, each free of commas and of edge whitespace |
| `FormOptions.ParseOptionsPieces` | app.py:94 | the i-th option is the i-th comma-delimited piece of the field with only its edge whitespace removed, so the options keep the field's order |
| `FormOptions.ParseOptionsOfPieces` | app.py:94 | parsing comma-free pieces joined by commas gives as many options as pieces, each the stripped piece at the same position |
| `FormOptions.ParseOptionsOfJoin` | app.py:94 | clean options joined by commas parse back to exactly those options |
| `Quizzes.ParseId` | app.py:152 | a string is accepted exactly when it is 24 hexadecimal digits, and the id is those digits in lower case |
| `Quizzes.ParsePrinted` | app.py:117 | parsing the printed form of an id gives that id |
| `Quizzes.ParseIgnoresCase` | app.py:152 | two accepted strings denote the same id exactly when they agree up to letter case |
| `Creation.Normalize` | app.py:67-100 | any other Content-Type gives the unsupported error; JSON succeeds exactly when the body is not null; a form succeeds exactly when no numeric or date field is empty, with options parsed from `str(options)`; the draft holds the request's values |
| `Creation.Validate` | app.py:103-108 | a draft passes exactly when `1 <= rightAnswer <= len(options)` and `start < end`; an index violation is reported before a date violation |
| `Creation.CheckCreate` | app.py:65-108 | an accepted request yields a well-formed draft; normalisation errors come first, unchanged; the validation errors follow in the source's order |
| `Creation.NewQuiz` | app.py:14-22 | a created record is well-formed and starts with `status` false, under the given id |
| `Reconciler.SetStatusWhere` | app.py:43-46 | a bulk update changes nothing but `status` and keeps the number and order of documents |
| `Reconciler.StatusOnlyKeepsStore` | app.py:39-52 | changing only statuses keeps every record well-formed and every id distinct |
| `Reconciler.Reconciled` | app.py:39-52 | a run keeps every document except its `status` |
| `Reconciler.TwoPassesReconcile` | app.py:39-52 | `TwoPasses`, the start update followed by the end update, sets each status off once ended, else on once started, else unchanged |
| `Reconciler.OrderMatters` | app.py:42-52 | running the end update before the start update would switch an ended quiz on, unlike the source's order |
| `Reconciler.ReconcileCatchUp` | app.py:39-52 | a run at a later time overrides an earlier run |
| `Reconciler.ReconcileIdempotent` | app.py:39-52 | a second run at the same time changes nothing |
| `Reconciler.ReconcileHistory` | app.py:39-54 | a schedule of runs with a nondecreasing clock leaves the collection as its last run alone would |
| `Reconciler.FreshQuizStatus` | app.py:39-52 | a quiz still at its creation status becomes active exactly when `start <= now < end`, so it is off at `now == end_date` |
| `Reconciler.ReconcileKeepsStore` | app.py:39-52 | a run keeps the collection's invariant |
| `Queries.ActiveQuizzes` | app.py:130-143 | the active listing holds the projection of a stored quiz exactly when `start <= now <= end`, with exactly as many entries as stored quizzes in their window (`CountInWindow`) |
| `Queries.AllQuizzes` | app.py:173-182 | the full listing has one entry per stored quiz and holds exactly the projections of the stored quizzes |
| `Queries.ListingsHideAnswers` | app.py:127-182 | neither listing depends on `status` or `right_answer` |
| `Queries.ActiveWithinAll` | app.py:127-182 | every entry of the active listing is in the full listing |
| `Queries.FindById` | app.py:152 | the lookup returns a stored quiz with the requested id, and nothing exactly when no stored quiz has that id |
| `Queries.GetQuizResult` | app.py:149-166 | a malformed id is a 400; an id not stored is a 404; a stored id is never a 400 or 404 but a 403 or the answer; the matching quiz gives 403 before `end_date + 300` seconds and its `right_answer` from then on |
| `Queries.ResultOfStoredQuiz` | app.py:149-166 | in a store with distinct ids, any spelling of a stored quiz's id gives 403 strictly before `end_date + 300` and that quiz's right answer from then on, an index within its options |
| `Store.AppendKeepsStore` | app.py:115-116 | inserting a well-formed quiz under a fresh id keeps the collection's invariant |
| `Store.QuizStore.constructor` | app.py:30-32 | an empty collection satisfies the invariant |
| `Store.QuizStore.CreateQuiz` | app.py:65-121 | a rejected request returns its error and leaves the collection unchanged; an accepted one appends `NewQuiz` under the new id, returns that id, and keeps the invariant |
| `Store.QuizStore.UpdateMany` | app.py:43-52 | the loop leaves the collection equal to `SetStatusWhere` of the old one and keeps the invariant |
| `Store.QuizStore.UpdateQuizStatus` | app.py:39-52 | a run leaves the collection equal to `Reconciled` of the old one and keeps the invariant |
| `Scenarios.DisclosureScenario` | app.py:149-166 | for a quiz ending at t+3600: 403 at t+3899, the answer at t+3900, 404 for an unknown id, 400 for a malformed one |
| `Scenarios.RejectionScenarios` | app.py:103-108 | indices 0 and 4 for three options, and equal dates, are refused with their messages |
| `Scenarios.MissingOptionsScenario` | app.py:86-94 | a form without an options field has the single option "None" |

## Left out

- Flask routing, the home page, the JSON encoding of responses and the error handler are left out. The endpoints' outcomes are modelled as `Result` values carrying the HTTP status and its message.
- The rate limiter is left out. Past its limit a request gets a 429 and, for `POST /quizzes`, inserts nothing. The model lets every request through.
- The background scheduler and its interval are left out, and so is any concurrency between the job and requests. A run is an atomic call of `UpdateQuizStatus` at a given `now`.
- The MongoDB client is left out. Besides inserts and the two bulk updates, its queries are functions over the collection's contents in insertion order.
- The model reads no real clock. `datetime.now()` is a parameter, and dates are unbounded whole seconds.
- Stored dates lose precision, and the model does not capture this. The date check compares microsecond datetimes, but BSON stores milliseconds, rounded down. Two dates less than a millisecond apart pass the check and are stored equal. So the stored invariant `start_date < end_date` in `WellFormedStore` holds only in the model.
- The overflow of `end_date + timedelta(minutes=5)` is not modelled. For an `end_date` within five minutes of `datetime.max`, the addition raises `OverflowError`, which becomes a 500. The model returns a 403 or the answer there.
- `int(...)` and `datetime.fromisoformat(...)` are not modelled. Their failures raise uncaught exceptions, which Flask turns into a 500. Form fields arrive either blank or already parsed, and JSON fields arrive already parsed.
- Several malformed requests are not modelled:
  - a form field `rightAnswer`, `startDate` or `endDate` that is absent rather than empty: `int(None)` or `fromisoformat(None)` raises, and the request gets a 500;
  - a JSON body without `rightAnswer`, `startDate` or `endDate`: the same exceptions, and a 500;
  - a missing Content-Type header, and a body that is not valid JSON: Flask answers each with its own 400.
- A JSON body without `options` is not modelled, because the model's JSON options are always a list. With `rightAnswer < 1`, the `or` in the index check never evaluates `len(options)`, so the request gets the 400 "Invalid rightAnswer index". With any other answer, `len(None)` raises and the request gets a 500.
- JSON `options` that are not a list of strings are not modelled. `len()` also accepts a string or an object, so `"options": "abc"` with `rightAnswer` 2 passes validation and is stored as that string. The model's options are a list of strings.
- A missing `question` is not modelled, in either a JSON body or a form. `get('question')` gives None, nothing checks it, and the quiz is stored with a null question. The model's question is always a string.
- A Content-Type with parameters, such as `application/json; charset=utf-8`, is compared by exact string equality as in the source. It is therefore unsupported.
- The store-assigned `_id` and its uniqueness are inputs: `newId` must be fresh. How MongoDB generates ids is not modelled.
- `Quizzes.ParseId` does not model the whitespace that `bytes.fromhex` skips inside a 24-character string. The model accepts exactly 24 hexadecimal digits.
