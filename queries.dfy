/**
 * The read-only operations: the active listing, the full listing and the
 * delayed disclosure of a quiz's answer. Each is a function of the
 * collection's contents, so none of them can change the collection.
 */
module Queries {
  import opened Quizzes

  /** How many stored quizzes have `now` in their window. */
  function CountInWindow(docs: seq<Quiz>, now: int): (n: nat)
    ensures n <= |docs|
  {
    if docs == [] then 0 else (if InWindow(docs[0], now) then 1 else 0) + CountInWindow(docs[1..], now)
  }

  /** `find({'start_date': {'$lte': now}, 'end_date': {'$gte': now}}, projection)`, in store order. */
  function ActiveQuizzes(docs: seq<Quiz>, now: int): (r: seq<QuizView>)
    ensures |r| == CountInWindow(docs, now)
    ensures forall q :: q in docs && InWindow(q, now) ==> View(q) in r
    ensures forall v :: v in r ==> exists q :: q in docs && InWindow(q, now) && v == View(q)
  {
    if docs == [] then []
    else
      var rest := ActiveQuizzes(docs[1..], now);
      assert forall q :: q in docs[1..] ==> q in docs;
      (if InWindow(docs[0], now) then [View(docs[0])] else []) + rest
  }

  /** `find({}, projection)`: one entry per stored quiz, in store order. */
  function AllQuizzes(docs: seq<Quiz>): (r: seq<QuizView>)
    ensures |r| == |docs|
    ensures forall q :: q in docs ==> View(q) in r
    ensures forall v :: v in r ==> exists q :: q in docs && v == View(q)
  {
    var r := seq(|docs|, i requires 0 <= i < |docs| => View(docs[i]));
    assert forall k :: 0 <= k < |docs| ==> r[k] == View(docs[k]);
    assert forall q :: q in docs ==> exists k :: 0 <= k < |docs| && docs[k] == q;
    r
  }

  /** The two quizzes differ at most in what the listings project away. */
  predicate SameListing(a: Quiz, b: Quiz) {
    View(a) == View(b) && a.startDate == b.startDate && a.endDate == b.endDate
  }

  /**
   * Neither listing depends on `status` or `right_answer`: forcing either to
   * any value leaves both listings as they were, so no answer leaks.
   */
  lemma {:induction false} ListingsHideAnswers(d1: seq<Quiz>, d2: seq<Quiz>, now: int)
    requires |d1| == |d2|
    requires forall i :: 0 <= i < |d1| ==> SameListing(d1[i], d2[i])
    ensures ActiveQuizzes(d1, now) == ActiveQuizzes(d2, now)
    ensures AllQuizzes(d1) == AllQuizzes(d2)
  {
    if d1 != [] {
      ListingsHideAnswers(d1[1..], d2[1..], now);
    }
  }

  /** Every active entry is also in the full listing. */
  lemma ActiveWithinAll(docs: seq<Quiz>, now: int)
    ensures forall v :: v in ActiveQuizzes(docs, now) ==> v in AllQuizzes(docs)
  {
    var all := AllQuizzes(docs);
    forall v | v in ActiveQuizzes(docs, now) ensures v in all {
      var q :| q in docs && InWindow(q, now) && v == View(q);
      var k :| 0 <= k < |docs| && docs[k] == q;
      assert all[k] == v;
    }
  }

  /** `find_one({'_id': id})`: the first stored quiz with that id. */
  function FindById(docs: seq<Quiz>, id: ObjectId): (r: Option<Quiz>)
    ensures r.Some? ==> r.value in docs && r.value.id == id
    ensures r.None? <==> forall q :: q in docs ==> q.id != id
  {
    if docs == [] then None
    else if docs[0].id == id then Some(docs[0])
    else
      assert forall q :: q in docs ==> q == docs[0] || q in docs[1..];
      FindById(docs[1..], id)
  }

  /**
   * `get_quiz_result`: a malformed id is a 400, an unknown one a 404, a quiz
   * whose end date plus five minutes has not passed a 403; otherwise the stored index.
   */
  function GetQuizResult(docs: seq<Quiz>, rawId: string, now: int): (r: Result<int>)
    ensures !ValidId(rawId) ==> r == Err(BadRequest(InvalidIdMessage))
    ensures ValidId(rawId) && (forall q :: q in docs ==> q.id != ParseId(rawId).value) ==>
              r == Err(NotFound(NotFoundMessage))
    ensures r.Ok? || r == Err(Forbidden(NotYetMessage)) ==>
              exists q :: q in docs && ParseId(rawId) == Some(q.id) &&
                          (r.Ok? <==> q.endDate + GracePeriod <= now) &&
                          (r.Ok? ==> r.value == q.rightAnswer)
    ensures ValidId(rawId) && (exists q :: q in docs && q.id == ParseId(rawId).value) ==>
              r.Ok? || r == Err(Forbidden(NotYetMessage))
  {
    match ParseId(rawId)
    case None => Err(BadRequest(InvalidIdMessage))
    case Some(id) =>
      match FindById(docs, id)
      case None => Err(NotFound(NotFoundMessage))
      case Some(q) =>
        if now < q.endDate + GracePeriod then Err(Forbidden(NotYetMessage)) else Ok(q.rightAnswer)
  }

  /**
   * For a stored quiz in a store with distinct ids, any spelling of its id gives
   * 403 strictly before `end_date + 300` and its right answer from then on, an
   * index within its options.
   */
  lemma ResultOfStoredQuiz(docs: seq<Quiz>, k: nat, rawId: string, now: int)
    requires WellFormedStore(docs) && k < |docs|
    requires ParseId(rawId) == Some(docs[k].id)
    ensures GetQuizResult(docs, rawId, now) ==
              if now < docs[k].endDate + GracePeriod then Err(Forbidden(NotYetMessage))
              else Ok(docs[k].rightAnswer)
    ensures GetQuizResult(docs, rawId, now).Ok? ==>
              1 <= GetQuizResult(docs, rawId, now).value <= |docs[k].options|
  {
    var f := FindById(docs, docs[k].id);
    var j :| 0 <= j < |docs| && docs[j] == f.value;
    assert j == k;
  }
}
