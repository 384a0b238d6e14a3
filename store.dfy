/**
 * The quizzes collection and the two operations that change it: inserting a
 * created quiz and the status job's bulk updates.
 */
module Store {
  import opened Quizzes
  import opened Creation
  import opened Reconciler

  /** Inserting a well-formed quiz under a fresh id keeps the collection's invariant. */
  lemma AppendKeepsStore(docs: seq<Quiz>, q: Quiz)
    requires WellFormedStore(docs) && WellFormed(q)
    requires forall i :: 0 <= i < |docs| ==> docs[i].id != q.id
    ensures WellFormedStore(docs + [q])
  {
    var d := docs + [q];
    assert forall i :: 0 <= i < |docs| ==> d[i] == docs[i];
  }

  class QuizStore {
    /** The collection's documents, in natural (insertion) order. */
    var docs: seq<Quiz>

    ghost predicate Valid()
      reads this
    {
      WellFormedStore(docs)
    }

    constructor ()
      ensures Valid() && docs == []
    {
      docs := [];
    }

    /**
     * `create_quiz`: normalise and validate the request; on success insert the
     * new record, whose `_id` the store assigns (`newId`, unused so far), and
     * return that id. A rejected request leaves the collection as it was.
     */
    method CreateQuiz(req: Request, newId: ObjectId) returns (res: Result<ObjectId>)
      requires Valid()
      requires forall i :: 0 <= i < |docs| ==> docs[i].id != newId
      modifies this
      ensures Valid()
      ensures CheckCreate(req).Err? ==> res == Err(CheckCreate(req).error) && docs == old(docs)
      ensures CheckCreate(req).Ok? ==>
                res == Ok(newId) && docs == old(docs) + [NewQuiz(newId, CheckCreate(req).value)]
    {
      var checked := CheckCreate(req);
      if checked.Err? {
        return Err(checked.error);
      }
      var quiz := NewQuiz(newId, checked.value);
      AppendKeepsStore(docs, quiz);
      docs := docs + [quiz];
      res := Ok(quiz.id);
    }

    /** One bulk `update_many`: set `status` to `value` on every document whose field `f` is at most `now`. */
    method UpdateMany(f: DateField, now: int, value: bool)
      requires Valid()
      modifies this
      ensures Valid()
      ensures docs == SetStatusWhere(old(docs), f, now, value)
    {
      var i := 0;
      while i < |docs|
        invariant 0 <= i <= |docs| == |old(docs)|
        invariant forall k :: 0 <= k < i ==> docs[k] == SetStatusWhere(old(docs), f, now, value)[k]
        invariant forall k :: i <= k < |docs| ==> docs[k] == old(docs)[k]
      {
        if DateOf(docs[i], f) <= now {
          docs := docs[i := docs[i].(status := value)];
        }
        i := i + 1;
      }
      StatusOnlyKeepsStore(old(docs), docs);
    }

    /**
     * `update_quiz_status` at `now`: the start update, then the end update. The
     * collection afterwards is the per-quiz rule of `Reconciled`.
     */
    method UpdateQuizStatus(now: int)
      requires Valid()
      modifies this
      ensures Valid()
      ensures docs == Reconciled(old(docs), now)
    {
      UpdateMany(StartDate, now, true);
      UpdateMany(EndDate, now, false);
      TwoPassesReconcile(old(docs), now);
    }
  }
}
