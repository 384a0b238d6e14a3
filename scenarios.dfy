/** Worked examples of the service's rules, stated on concrete inputs. */
module Scenarios {
  import opened Quizzes
  import opened FormOptions
  import opened Creation
  import opened Queries
  import opened Store

  const SomeId: ObjectId := "65a1f0c2e4b0a1b2c3d4e5f6"

  function JsonRequest(options: seq<string>, rightAnswer: int, start: int, end: int): Request {
    Request(JsonContentType, Some(JsonFields("Capital of France?", options, rightAnswer, start, end)),
            FormFields("", None, Blank, Blank, Blank))
  }

  /** A quiz created for `[t, t + 1h]` is listed at `t + 30min` and no longer at `t + 2h`. */
  method ActiveWindowScenario(t: int) {
    var store := new QuizStore();
    var res := store.CreateQuiz(JsonRequest(["a", "b", "c"], 2, t, t + 3600), SomeId);
    assert res == Ok(SomeId);
    var q := store.docs[0];
    assert ActiveQuizzes(store.docs, t + 1800) == [View(q)];
    assert ActiveQuizzes(store.docs, t + 7200) == [];
    store.UpdateQuizStatus(t + 1800);
    assert store.docs[0].status;
    store.UpdateQuizStatus(t + 7200);
    assert !store.docs[0].status;
  }

  /** The answer stays hidden until exactly five minutes after the end. */
  lemma DisclosureScenario(t: int)
    ensures var q := Quiz(SomeId, "Capital of France?", ["a", "b", "c"], 2, t, t + 3600, false);
            && GetQuizResult([q], SomeId, t + 3600 + 299) == Err(Forbidden(NotYetMessage))
            && GetQuizResult([q], SomeId, t + 3600 + 300) == Ok(2)
            && GetQuizResult([q], "000000000000000000000000", t + 7200) == Err(NotFound(NotFoundMessage))
            && GetQuizResult([q], "not-an-id", t + 7200) == Err(BadRequest(InvalidIdMessage))
  {
    var q := Quiz(SomeId, "Capital of France?", ["a", "b", "c"], 2, t, t + 3600, false);
    ParsePrinted(SomeId);
    ParsePrinted("000000000000000000000000");
    assert SomeId[0] != "000000000000000000000000"[0];
  }

  /** Answer indices 0 and 4 are out of range for three options; equal dates are refused. */
  lemma RejectionScenarios(t: int)
    ensures CheckCreate(JsonRequest(["a", "b", "c"], 0, t, t + 3600)) == Err(BadRequest(InvalidIndexMessage))
    ensures CheckCreate(JsonRequest(["a", "b", "c"], 4, t, t + 3600)) == Err(BadRequest(InvalidIndexMessage))
    ensures CheckCreate(JsonRequest(["a", "b", "c"], 2, t, t)) == Err(BadRequest(DateOrderMessage))
  {
  }

  /** A form without an options field has the one option "None". */
  lemma MissingOptionsScenario()
    ensures ParseOptions(OptionsText(None)) == ["None"]
  {
    ParseOptionsOfJoin(["None"]);
  }
}
