/**
 * The stored quiz document, its store-assigned identifier and the outcomes
 * the service reports.
 */
module Quizzes {

  // ---------------------------------------------------------------- ids

  predicate IsHexDigit(c: char) {
    '0' <= c <= '9' || 'a' <= c <= 'f' || 'A' <= c <= 'F'
  }

  predicate IsLowerHexDigit(c: char) {
    '0' <= c <= '9' || 'a' <= c <= 'f'
  }

  /** A string `ObjectId(s)` accepts: 24 hexadecimal digits (12 bytes), in either case. */
  predicate ValidId(s: string) {
    |s| == 24 && forall i :: 0 <= i < |s| ==> IsHexDigit(s[i])
  }

  /**
   * An ObjectId, in the form `str(oid)` prints it: 24 lower-case hexadecimal
   * digits. Two ids are the same 12 bytes exactly when these strings are equal.
   */
  type ObjectId = s: string | |s| == 24 && forall i :: 0 <= i < |s| ==> IsLowerHexDigit(s[i])
    witness "000000000000000000000000"

  function LowerHex(c: char): char {
    if 'A' <= c <= 'F' then (c as int - 'A' as int + 'a' as int) as char else c
  }

  /** `ObjectId(s)`: the id a string denotes, or None where pymongo raises `InvalidId`. */
  function ParseId(s: string): (r: Option<ObjectId>)
    ensures r.Some? <==> ValidId(s)
    ensures r.Some? ==> forall i :: 0 <= i < 24 ==> r.value[i] == LowerHex(s[i])
  {
    if ValidId(s) then Some(seq(24, i requires 0 <= i < 24 => LowerHex(s[i]))) else None
  }

  /** Parsing the printed form of an id gives the id back (`ObjectId(str(oid)) == oid`). */
  lemma ParsePrinted(id: ObjectId)
    ensures ParseId(id) == Some(id)
  {
    assert ValidId(id);
    assert ParseId(id).value == id;
  }

  /** Two accepted strings name the same id exactly when they agree up to the case of their letters. */
  lemma ParseIgnoresCase(s: string, t: string)
    requires ValidId(s) && ValidId(t)
    ensures ParseId(s) == ParseId(t) <==> forall i :: 0 <= i < 24 ==> LowerHex(s[i]) == LowerHex(t[i])
  {
    if forall i :: 0 <= i < 24 ==> LowerHex(s[i]) == LowerHex(t[i]) {
      assert ParseId(s).value == ParseId(t).value;
    }
  }

  datatype Option<+T> = None | Some(value: T)

  // ---------------------------------------------------------------- records

  /**
   * A stored quiz document. Timestamps are seconds. `status` is the cached
   * "has started and not yet ended" flag the reconciler maintains.
   */
  datatype Quiz = Quiz(
    id: ObjectId,
    question: string,
    options: seq<string>,
    rightAnswer: int,
    startDate: int,
    endDate: int,
    status: bool)

  /** What the listings show of a quiz: id, question and options, never the answer or the status. */
  datatype QuizView = QuizView(id: ObjectId, question: string, options: seq<string>)

  function View(q: Quiz): QuizView {
    QuizView(q.id, q.question, q.options)
  }

  /** The window `start_date <= now <= end_date`, closed at both ends. */
  predicate InWindow(q: Quiz, now: int) {
    q.startDate <= now <= q.endDate
  }

  /** The two validated invariants of a created quiz. */
  predicate WellFormed(q: Quiz) {
    1 <= q.rightAnswer <= |q.options| && q.startDate < q.endDate
  }

  predicate UniqueIds(docs: seq<Quiz>) {
    forall i, j :: 0 <= i < j < |docs| ==> docs[i].id != docs[j].id
  }

  /** The invariant of the whole collection. */
  predicate WellFormedStore(docs: seq<Quiz>) {
    (forall i :: 0 <= i < |docs| ==> WellFormed(docs[i])) && UniqueIds(docs)
  }

  // ---------------------------------------------------------------- outcomes

  /** The aborts of the service, by HTTP status, with their messages. */
  datatype Error =
    | BadRequest(message: string)   // 400
    | NotFound(message: string)     // 404
    | Forbidden(message: string)    // 403

  datatype Result<T> = Ok(value: T) | Err(error: Error)

  const JsonExpectedMessage := "Invalid request body. JSON data expected."
  const MissingDataMessage := "Invalid request body. Missing Data."
  const UnsupportedMessage := "Unsupported Media Type or empty body"
  const InvalidIndexMessage := "Invalid rightAnswer index"
  const DateOrderMessage := "End date must be a date after the start date"
  const NotFoundMessage := "Quiz result not found"
  const NotYetMessage := "Result not available yet! Try after the quiz has ended."
  const InvalidIdMessage := "Invalid quiz ID"

  /** `timedelta(minutes=5)`, in seconds. */
  const GracePeriod := 300
}
