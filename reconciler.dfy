/**
 * What the periodic status job computes: two bulk updates run in a fixed
 * order with the same `now`, and the per-quiz status they amount to.
 */
module Reconciler {
  import opened Quizzes

  /** The date field a bulk update filters on. */
  datatype DateField = StartDate | EndDate

  function DateOf(q: Quiz, f: DateField): int {
    match f
    case StartDate => q.startDate
    case EndDate => q.endDate
  }

  /** `update_many({f: {'$lte': now}}, {'$set': {'status': value}})` on the collection's contents. */
  function SetStatusWhere(docs: seq<Quiz>, f: DateField, now: int, value: bool): (r: seq<Quiz>)
    ensures StatusOnly(docs, r)
  {
    seq(|docs|, i requires 0 <= i < |docs| =>
      if DateOf(docs[i], f) <= now then docs[i].(status := value) else docs[i])
  }

  /** `b` is `a` with at most the `status` of some documents changed. */
  predicate StatusOnly(a: seq<Quiz>, b: seq<Quiz>) {
    |a| == |b| && forall i :: 0 <= i < |a| ==> b[i].(status := a[i].status) == a[i]
  }

  /** Changing only statuses keeps every stored invariant. */
  lemma StatusOnlyKeepsStore(a: seq<Quiz>, b: seq<Quiz>)
    requires WellFormedStore(a) && StatusOnly(a, b)
    ensures WellFormedStore(b)
  {
    assert forall i :: 0 <= i < |a| ==> b[i].id == a[i].id;
  }

  /** The two updates of one run, start update first. */
  function TwoPasses(docs: seq<Quiz>, now: int): seq<Quiz> {
    SetStatusWhere(SetStatusWhere(docs, StartDate, now, true), EndDate, now, false)
  }

  /** Status of one quiz after a run: off once ended, else on once started, else unchanged. */
  function ReconciledStatus(q: Quiz, now: int): bool {
    if q.endDate <= now then false else if q.startDate <= now then true else q.status
  }

  /** The collection after a run, quiz by quiz; nothing but `status` differs. */
  function Reconciled(docs: seq<Quiz>, now: int): (r: seq<Quiz>)
    ensures StatusOnly(docs, r)
  {
    seq(|docs|, i requires 0 <= i < |docs| => docs[i].(status := ReconciledStatus(docs[i], now)))
  }

  /** The two ordered bulk updates amount to the per-quiz rule. */
  lemma TwoPassesReconcile(docs: seq<Quiz>, now: int)
    ensures TwoPasses(docs, now) == Reconciled(docs, now)
  {
    var r, s := TwoPasses(docs, now), Reconciled(docs, now);
    assert |r| == |s|;
    forall i | 0 <= i < |r| ensures r[i] == s[i] {
    }
  }

  /** Running the updates in the other order would switch an ended quiz back on. */
  lemma OrderMatters()
    ensures var q := Quiz("000000000000000000000000", "q", ["a"], 1, 0, 10, false);
            var swapped := SetStatusWhere(SetStatusWhere([q], EndDate, 20, false), StartDate, 20, true);
            swapped[0].status && !Reconciled([q], 20)[0].status
  {
  }

  /** A later run overrides an earlier one: a missed run loses nothing. */
  lemma ReconcileCatchUp(docs: seq<Quiz>, t1: int, t2: int)
    requires t1 <= t2
    ensures Reconciled(Reconciled(docs, t1), t2) == Reconciled(docs, t2)
  {
    var r, s := Reconciled(Reconciled(docs, t1), t2), Reconciled(docs, t2);
    forall i | 0 <= i < |docs| ensures r[i] == s[i] {
    }
  }

  /** A run repeated with the same `now` changes nothing more: a doubled run is harmless. */
  lemma ReconcileIdempotent(docs: seq<Quiz>, now: int)
    ensures Reconciled(Reconciled(docs, now), now) == Reconciled(docs, now)
  {
    ReconcileCatchUp(docs, now, now);
  }

  /** The runs of a schedule, in order. */
  function ReconcileAll(docs: seq<Quiz>, times: seq<int>): seq<Quiz>
    decreases |times|
  {
    if times == [] then docs else ReconcileAll(Reconciled(docs, times[0]), times[1..])
  }

  predicate Nondecreasing(times: seq<int>) {
    forall i, j :: 0 <= i <= j < |times| ==> times[i] <= times[j]
  }

  /** Any schedule of runs with a nondecreasing clock leaves what its last run alone would leave. */
  lemma {:induction false} ReconcileHistory(docs: seq<Quiz>, times: seq<int>)
    requires |times| >= 1 && Nondecreasing(times)
    ensures ReconcileAll(docs, times) == Reconciled(docs, times[|times| - 1])
    decreases |times|
  {
    if |times| > 1 {
      ReconcileHistory(Reconciled(docs, times[0]), times[1..]);
      ReconcileCatchUp(docs, times[0], times[|times| - 1]);
    }
  }

  /**
   * For a quiz whose status is still the creation value `false`, a run sets it
   * to "inside the window and not at its end": the flag is off at `now == end_date`
   * although the active listing's window still contains that instant.
   */
  lemma FreshQuizStatus(q: Quiz, now: int)
    requires !q.status
    ensures ReconciledStatus(q, now) == (InWindow(q, now) && now != q.endDate)
  {
  }

  /** A run keeps every stored invariant: only `status` changes. */
  lemma ReconcileKeepsStore(docs: seq<Quiz>, now: int)
    requires WellFormedStore(docs)
    ensures WellFormedStore(Reconciled(docs, now))
  {
    StatusOnlyKeepsStore(docs, Reconciled(docs, now));
  }
}
