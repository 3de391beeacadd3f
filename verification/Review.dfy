/** The console's decision handler: derive the approval id, commit, and drain only a committed decision
    (console/review.py). */
module Review {

  import opened Basics
  import opened Store
  import A = Approvals
  import C = Commands
  import E = Erp
  import H = HoldAndFile
  import I = Inbox
  import L = Lifecycle
  import R = Runner

  /** A submitted form: the version the person deciding saw, the decision word, and who decided. */
  datatype Form = Form(expected: int, decision: Option<Choice>, actor: string)

  /** What the drain behind a decision meets: how rows are listed, what the ERP answers, and whether it dies. */
  datatype Setting = Setting(order: set<Key> -> seq<Key>, calls: Key -> E.Answer, death: Option<R.Death>)

  /** `reports` is None when the drain raises out of the handler. */
  datatype After = After(case_: Option<Case>, records: E.Records, result: A.Result, reports: Option<seq<R.Report>>)

  predicate Addressable(caseId: string) { '/' !in caseId }

  function AttemptOf(caseId: string, f: Form): A.Attempt {
    A.Attempt(A.DerivedId(caseId, f.expected), f.expected, f.decision, f.actor)
  }

  /** The handler from its served commit on. */
  function Reviewed(caseId: string, c: Option<Case>, r: E.Records, f: Form, at: Setting): After {
    var result := A.Outcome(c, AttemptOf(caseId, f));
    var decided := A.Decided(c, AttemptOf(caseId, f));
    if !result.committed || decided.None? then After(c, r, result, Some([]))
    else
      var d := R.DrainedUntil(decided.value, r, at.order(decided.value.outbox.Keys), at.calls, at.death);
      After(Some(decided.value.(outbox := d.outbox)), d.records, result,
            if at.death.None? then Some(d.reports) else None)
  }

  /** The handler; an unaddressable case id is answered like an unknown case, before anything is read. `seen[i]` is what
      other writers have made of the database by the time of the i-th try of the commit, and `aborted[i]` whether that
      try is aborted; a result of None is the abort, leaving the handler with nothing decided and nothing drained. */
  method Decide(db: Firestore, erp: E.Frappe, caseId: string, f: Form, seen: seq<map<string, Case>>, aborted: seq<bool>,
                at: Setting)
    returns (result: Option<A.Result>, reports: Option<seq<R.Report>>)
    requires R.Enumerates(at.order) && |seen| == 5 == |aborted|
    modifies db, erp
    ensures '/' in caseId ==>
              db.cases == old(db.cases) && erp.Data() == old(erp.Data())
              && result == Some(A.Result(false, 0, A.UnknownCase)) && reports == Some([])
    ensures '/' !in caseId ==>
              var k := A.FirstServed(aborted, 0);
              if k == 5 then
                result.None? && reports.None? && db.cases == seen[4] && erp.Data() == old(erp.Data())
              else
                var after := Reviewed(caseId, I.Find(seen[k], caseId), old(erp.Data()), f, at);
                db.cases == I.Put(seen[k], caseId, after.case_) && erp.Data() == after.records
                && result == Some(after.result) && reports == after.reports
  {
    hide R.DrainedUntil;
    if !Addressable(caseId) {
      return Some(A.Result(false, 0, A.UnknownCase)), Some([]);
    }
    result := A.CommitApproval(db, caseId, AttemptOf(caseId, f), seen, aborted);
    if result.None? {
      return None, None;
    }
    reports := Some([]);
    if result.value.committed {
      var stream := at.order(db.cases[caseId].outbox.Keys);
      reports := R.ExecutePendingCommands(db, erp, caseId, stream, at.calls, at.death);
    }
  }

  /** A committed decision rules at once: an approval clears the case and a rejection blocks it, under the derived id
      and beside the band the gate had stored. The next new event ends its rule, and the gate's band stands again. */
  lemma DecisionsRule(caseId: string, c: Case, f: Form, d: I.Delivery)
    requires A.Outcome(Some(c), AttemptOf(caseId, f)).committed
    ensures var after := A.Decided(Some(c), AttemptOf(caseId, f));
            after.Some? && f.decision.Some? && f.expected == c.version
            && after.value.approval ==
                 Some(Approval(A.DerivedId(caseId, f.expected), f.decision.value, f.actor, c.version))
            && R.EffectiveBand(after.value) ==
                 R.Effective(Some(if f.decision == Some(Approve) then Clear else Blocked), GateBand(c),
                             Some(A.DerivedId(caseId, f.expected)))
            && (I.Outcome(after, d).reason == I.Initial ==>
                  I.Claimed(after, d).Some?
                  && R.EffectiveBand(I.Claimed(after, d).value) == R.Effective(GateBand(c), GateBand(c), None))
  {
  }

  /** A committed rejection grants nothing, even if its drain dies: no permissive row or record moves. One that gets
      through still drives every open hold. */
  lemma RejectionGrantsNothing(caseId: string, c: Case, r: E.Records, f: Form, at: Setting)
    requires R.Enumerates(at.order)
    requires A.Outcome(Some(c), AttemptOf(caseId, f)).committed && f.decision == Some(Reject)
    ensures var after := Reviewed(caseId, Some(c), r, f, at);
            after.case_.Some? && R.OnlyRestricted(r, after.records) && after.case_.value.outbox.Keys == c.outbox.Keys
            && (forall k :: k in c.outbox && (C.Settled(c.outbox[k].status) || k.action != L.ApplyHold) ==>
                  after.case_.value.outbox[k] == c.outbox[k])
            && (at.death.None? ==>
                  forall k :: k in c.outbox && !C.Settled(c.outbox[k].status) && k.action == L.ApplyHold ==>
                    R.Moved(false, c.outbox[k], after.case_.value.outbox[k], k.action))
  {
    hide R.DrainAll, R.Todo, R.DrainedUntil, R.Drained;
    var decided := A.Decided(Some(c), AttemptOf(caseId, f)).value;
    var stream := at.order(decided.outbox.Keys);
    assert !R.Cleared(decided) && R.Lists(stream, decided.outbox);
    R.DyingDrainMovesOpenRows(decided, r, stream, at.calls, at.death);
    if at.death.None? {
      R.DrainMovesOpenRows(decided, r, stream, at.calls);
      assert R.DrainedUntil(decided, r, stream, at.calls, None) == R.Drained(decided, r, stream, at.calls) by {
        WithoutDeath(decided, r, stream, at.calls);
      }
    }
    H.RecordsOfTheReached(decided, r, stream, at.calls, at.death);
    R.UnclearedDrainAll(R.Drain(decided.outbox, r, []), decided.outbox,
      H.Reached(R.Todo(decided.outbox, stream), at.death),
                        at.calls);
  }

  lemma WithoutDeath(c: Case, r: E.Records, stream: seq<Key>, calls: Key -> E.Answer)
    ensures R.DrainedUntil(c, r, stream, calls, None) == R.Drained(c, r, stream, calls)
  {
  }

  /** A committed approval releases everything that was waiting: each open row is done or has one failure more, or,
      if the drain dies before it got there, is as it was. */
  lemma ApprovalReleasesEverything(caseId: string, c: Case, r: E.Records, f: Form, at: Setting)
    requires R.Enumerates(at.order)
    requires A.Outcome(Some(c), AttemptOf(caseId, f)).committed && f.decision == Some(Approve)
    ensures var after := Reviewed(caseId, Some(c), r, f, at);
            after.case_.Some? && after.case_.value.outbox.Keys == c.outbox.Keys
            && forall k :: k in c.outbox && !C.Settled(c.outbox[k].status) ==>
                 after.case_.value.outbox[k].status == Done
                 || (after.case_.value.outbox[k].executionAttempts == c.outbox[k].executionAttempts + 1
                     && after.case_.value.outbox[k].status == C.FailureStatus(c.outbox[k]))
                 || (at.death.Some? && after.case_.value.outbox[k] == c.outbox[k])
  {
    hide R.DrainAll, R.Todo, R.DrainedUntil, R.Drained;
    var decided := A.Decided(Some(c), AttemptOf(caseId, f)).value;
    var stream := at.order(decided.outbox.Keys);
    R.DyingDrainMovesOpenRows(decided, r, stream, at.calls, at.death);
    if at.death.None? {
      R.DrainMovesOpenRows(decided, r, stream, at.calls);
      WithoutDeath(decided, r, stream, at.calls);
    }
  }

  /** A double click, a retry and a resubmitted form are harmless: once a decision has committed at a version, any
      readable one for that version is refused as a duplicate, and neither the case nor the ERP moves. */
  lemma ResubmissionChangesNothing(caseId: string, c: Case, r: E.Records, f: Form, again: Form, at: Setting,
                                   at': Setting)
    requires A.Outcome(Some(c), AttemptOf(caseId, f)).committed && again.expected == f.expected
    ensures var once := Reviewed(caseId, Some(c), r, f, at);
            var twice := Reviewed(caseId, once.case_, once.records, again, at');
            twice.case_ == once.case_ && twice.records == once.records && twice.reports == Some([])
            && twice.result ==
                 A.Result(false, c.version, if again.decision.Some? then A.DuplicateApproval else A.InvalidDecision)
  {
    hide R.DrainedUntil, A.DerivedId;
  }
}
