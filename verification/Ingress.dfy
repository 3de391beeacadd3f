/** The push handler: claim, engine, dispatch mark, drain, and what the sender is told (ingress/main.py). */
module Ingress {

  import opened Basics
  import opened Store
  import C = Commands
  import E = Erp
  import G = Graph
  import I = Inbox
  import R = Runner
  import S = GraphSafety
  import T = Terminals

  /** A delivery and everything it meets: what the run is given, how many of its writes the engine lives to make when
      the invocation fails (None when it does not), how the ERP answers each command, and the order in which the
      database lists a set of rows. */
  datatype Push = Push(eventId: string, expected: Option<int>, event: G.Event, env: G.Environment, answers: G.Answers,
                       lives: Option<nat>, calls: Key -> E.Answer, death: Option<R.Death>, order: set<Key> -> seq<Key>)

  datatype Response = NotClaimed(reason: I.ClaimReason) | Processed(version: nat) | EngineFailed | CommandsFailed

  function DeliveryOf(p: Push): I.Delivery { I.Delivery(p.eventId, p.expected, p.event.supplier) }

  function DrainOf(c: Case, r: E.Records, p: Push): R.Drain {
    R.DrainedUntil(c, r, p.order(c.outbox.Keys), p.calls, p.death)
  }

  predicate AnyFailed(reports: seq<R.Report>) {
    exists i :: 0 <= i < |reports| && reports[i].Ran? && reports[i].status == Failed
  }

  datatype After = After(case_: Option<Case>, records: E.Records, response: Response)

  function RunOf(c: Case, p: Push): G.Run { G.RunGraph(p.event, p.env, p.answers, c) }

  function Engine(c: Case, p: Push): Case {
    T.RunsVisit(p.event, p.env, p.answers, c);
    T.ApplyAll(c, T.Cut(T.Writes(p.event, p.env, RunOf(c, p)), p.lives))
  }

  /** The invocation fails: the run raised, or its process died, or its response was lost. */
  predicate EngineRaises(c: Case, p: Push) {
    T.RunsVisit(p.event, p.env, p.answers, c);
    p.lives.Some? || T.Raises(p.event, p.env, RunOf(c, p))
  }

  /** The case once the engine has run for an admitted event and the event is marked. */
  function Handled(c: Case, p: Push): Case {
    var run := Engine(c, p);
    if p.eventId in run.inbox then I.Dispatched(run, p.eventId) else run
  }

  function Pushed(c: Option<Case>, r: E.Records, p: Push): After {
    var claim := I.Outcome(c, DeliveryOf(p));
    var claimed := I.Claimed(c, DeliveryOf(p));
    if !claim.claimed then
      if claim.reason == I.DuplicateEvent && c.Some? then
        var d := DrainOf(c.value, r, p);
        After(Some(c.value.(outbox := d.outbox)), d.records, NotClaimed(claim.reason))
      else After(c, r, NotClaimed(claim.reason))
    else if claimed.None? then After(claimed, r, EngineFailed)
    else if EngineRaises(claimed.value, p) then After(Some(Engine(claimed.value, p)), r, EngineFailed)
    else
      var handled := Handled(claimed.value, p);
      var d := DrainOf(handled, r, p);
      After(Some(handled.(outbox := d.outbox)), d.records,
            if p.death.Some? || AnyFailed(d.reports) then CommandsFailed else Processed(claim.version))
  }

  method HandlePush(db: Firestore, erp: E.Frappe, caseId: string, p: Push) returns (response: Response)
    requires R.Enumerates(p.order)
    modifies db, erp
    ensures var after := Pushed(I.Find(old(db.cases), caseId), old(erp.Data()), p);
            db.cases == I.Put(old(db.cases), caseId, after.case_) && erp.Data() == after.records
              && response == after.response
  {
    hide EngineRaises, Engine, Handled, DrainOf, AnyFailed;
    var claim := I.ClaimEvent(db, caseId, DeliveryOf(p));
    if claim.claimed {
      response := DriveEvent(db, erp, caseId, p, claim.version);
    } else {
      if claim.reason == I.DuplicateEvent {
        DrainDuplicate(db, erp, caseId, p);
      }
      response := NotClaimed(claim.reason);
    }
  }

  /** A duplicate still drains; how that goes is not reported. */
  method DrainDuplicate(db: Firestore, erp: E.Frappe, caseId: string, p: Push)
    requires R.Enumerates(p.order) && caseId in db.cases
    modifies db, erp
    ensures var c := old(db.cases[caseId]);
            var d := DrainOf(c, old(erp.Data()), p);
            db.cases == old(db.cases)[caseId := c.(outbox := d.outbox)] && erp.Data() == d.records
  {
    hide R.DrainedUntil;
    var _ := R.ExecutePendingCommands(db, erp, caseId, p.order(db.cases[caseId].outbox.Keys), p.calls, p.death);
  }

  /** An admitted event: the engine, and, if it returns, the rest. */
  method DriveEvent(db: Firestore, erp: E.Frappe, caseId: string, p: Push, version: nat) returns (response: Response)
    requires R.Enumerates(p.order) && caseId in db.cases && p.eventId in db.cases[caseId].inbox
    modifies db, erp
    ensures var c := old(db.cases[caseId]);
            if EngineRaises(c, p) then
              db.cases == old(db.cases)[caseId := Engine(c, p)] && erp.Data() == old(erp.Data())
                && response == EngineFailed
            else
              var handled := Handled(c, p);
              var d := DrainOf(handled, old(erp.Data()), p);
              db.cases == old(db.cases)[caseId := handled.(outbox := d.outbox)] && erp.Data() == d.records
              && response == if p.death.Some? || AnyFailed(d.reports) then CommandsFailed else Processed(version)
  {
    hide G.RunGraph, DrainOf, AnyFailed, T.Writes, T.ApplyAll, T.Cut, T.Raises, C.Claimed;
    ghost var c := db.cases[caseId];
    T.RunsVisit(p.event, p.env, p.answers, c);
    var ok := T.InvokeEngine(db, caseId, p.event, p.env, p.answers, p.lives);
    if !ok {
      return EngineFailed;
    }
    T.WritesExtendTheOutbox(c, T.Cut(T.Writes(p.event, p.env, RunOf(c, p)), p.lives));
    response := FinishPush(db, erp, caseId, p, version);
  }

  /** After the engine has returned: mark the event, drain, answer. */
  method FinishPush(db: Firestore, erp: E.Frappe, caseId: string, p: Push, version: nat) returns (response: Response)
    requires R.Enumerates(p.order) && caseId in db.cases && p.eventId in db.cases[caseId].inbox
    modifies db, erp
    ensures var handled := I.Dispatched(old(db.cases[caseId]), p.eventId);
            var d := DrainOf(handled, old(erp.Data()), p);
            db.cases == old(db.cases)[caseId := handled.(outbox := d.outbox)] && erp.Data() == d.records
            && response == if p.death.Some? || AnyFailed(d.reports) then CommandsFailed else Processed(version)
  {
    hide R.DrainedUntil;
    I.MarkDispatched(db, caseId, p.eventId);
    var results := R.ExecutePendingCommands(db, erp, caseId, p.order(db.cases[caseId].outbox.Keys), p.calls, p.death);
    if results.None? {
      return CommandsFailed;
    }
    var reports := results.value;
    response := if exists i :: 0 <= i < |reports| && reports[i].Ran? && reports[i].status == Failed then CommandsFailed
                else Processed(version);
  }

  /** The gate refuses to carry a stored verdict it cannot read; the executor looks at the named band alone. They
      part, without a decision in force, exactly on an unreadable block that names clear. */
  lemma ExecutorTrustsANamedBand(c: Case)
    requires !R.Applies(c)
    ensures R.Cleared(c) && G.Carried(c.policy).band == Blocked <==> c.policy == Unreadable(Some(Clear))
    ensures c.policy.Stored? || c.policy.NoPolicy? ==> (R.Cleared(c) <==> G.Carried(c.policy).band == Clear)
  {
  }

  /** What a push is turned away for, and what a case is when a push opens it. */
  lemma PushesAreAdmittedExactly(c: Option<Case>, r: E.Records, p: Push)
    ensures var after := Pushed(c, r, p);
            var known := c.Some? && p.eventId in c.value.inbox;
            (after.response == NotClaimed(I.StaleEvent) <==>
               !known && p.expected.Some? && p.expected.value != if c.Some? then c.value.version else 0)
            && (after.response == NotClaimed(I.DuplicateEvent) <==> known && c.value.inbox[p.eventId].dispatched)
            && after.response != NotClaimed(I.Initial) && after.response != NotClaimed(I.Redispatch)
            && (c.None? && !after.response.NotClaimed? ==>
                  I.Claimed(c, DeliveryOf(p)).Some? && I.Claimed(c, DeliveryOf(p)).value.supplier == p.event.supplier)
  {
    hide DrainOf, EngineRaises, Engine, Handled, AnyFailed;
  }

  /** An invocation fails exactly when its process dies, when the run stops before a terminal for any reason but a
      carried band without an edge that the workflow passes over, or when the terminal's decision raises. */
  lemma EnginesFailExactly(c: Case, p: Push)
    ensures var run := RunOf(c, p);
            |run.trace| > 0
            && (EngineRaises(c, p) <==>
                  p.lives.Some?
                  || (!G.Terminal(G.End(run)) && !(run.fate.Stranded? && !p.env.strandedFails))
                  || (!G.End(run).QuarantineCase? && G.Terminal(G.End(run))
                      && S.DecisionOf(p.event, p.env, run).Raised?))
            && (run.fate.Stranded? ==> c.policy.Stored? && c.policy.verdict.band.Foreign?)
  {
    hide G.RunFrom, G.Visit, S.DecisionOf;
    T.RunsVisit(p.event, p.env, p.answers, c);
    S.HowRunsEnd(p.event, p.env, p.answers, c);
    S.GraphIsSound(p.event, p.env, p.answers, c);
  }

  /** Every push that gets as far as its drain, a duplicate's included, drives the ledger: each open row the case
      permits is finished or has one more failure, and every other row stays. Any other push leaves the ERP alone.
      */
  lemma PushesDriveTheLedger(c: Option<Case>, r: E.Records, p: Push)
    requires R.Enumerates(p.order) && p.death.None?
    ensures var claim, claimed, after := I.Outcome(c, DeliveryOf(p)), I.Claimed(c, DeliveryOf(p)), Pushed(c, r, p);
            var drives := if claim.claimed then claimed.Some? && !EngineRaises(claimed.value, p)
                          else claim.reason == I.DuplicateEvent;
            if drives then
              after.case_.Some? && claimed.Some?
              && var start := if claim.claimed then Handled(claimed.value, p) else claimed.value;
                 after.case_.value.outbox.Keys == start.outbox.Keys
                 && forall k :: k in start.outbox ==>
                      if C.Settled(start.outbox[k].status) then after.case_.value.outbox[k] == start.outbox[k]
                      else R.Moved(R.Cleared(start), start.outbox[k], after.case_.value.outbox[k], k.action)
            else after.records == r
  {
    hide R.Drained, R.Moved, R.Cleared, EngineRaises, Handled, Engine, AnyFailed, C.Settled;
    var claim, claimed := I.Outcome(c, DeliveryOf(p)), I.Claimed(c, DeliveryOf(p));
    if claimed.Some? {
      var start := if claim.claimed then Handled(claimed.value, p) else claimed.value;
      R.DrainMovesOpenRows(start, r, p.order(start.outbox.Keys), p.calls);
    }
  }

  /** What a push leaves of the case beside its ledger and its inbox is what the engine left of it; beside them, a
      push that is turned away leaves the case as it was. */
  lemma PushesKeepTheRunsCase(c: Option<Case>, r: E.Records, p: Push)
    requires R.Enumerates(p.order)
    ensures var claim, claimed, after := I.Outcome(c, DeliveryOf(p)), I.Claimed(c, DeliveryOf(p)), Pushed(c, r, p);
            (claim.claimed ==>
               claimed.Some? && after.case_.Some?
               && var run := Engine(claimed.value, p);
                  after.case_.value.(outbox := run.outbox, inbox := run.inbox) == run
                  && after.case_.value.inbox.Keys == run.inbox.Keys
                  && (after.response.EngineFailed? ==> after.case_.value == run))
            && (!claim.claimed && c.Some? ==>
                  after.case_.Some? && after.case_.value.(outbox := c.value.outbox) == c.value)
            && (!claim.claimed && c.None? ==> after.case_.None?)
  {
    hide R.DrainedUntil, EngineRaises, Engine, AnyFailed;
  }

  /** A row that this drain ran and that failed. */
  ghost predicate LeavesAFailure(c: Case, r: E.Records, p: Push) {
    var after := DrainOf(c, r, p).outbox;
    exists k :: k in c.outbox && !C.Settled(c.outbox[k].status) && R.Permitted(R.Cleared(c), k.action)
                && k in after && after[k].status == Failed
  }

  lemma FailuresAreReported(c: Case, r: E.Records, p: Push)
    requires R.Enumerates(p.order) && p.death.None?
    ensures AnyFailed(DrainOf(c, r, p).reports) <==> LeavesAFailure(c, r, p)
  {
    hide R.Drained, R.Cleared, R.Todo, R.Sorted, R.Selected;
    var d := DrainOf(c, r, p);
    R.ReportsTellTheRows(c, r, p.order(c.outbox.Keys), p.calls);
    if LeavesAFailure(c, r, p) {
      var k :| k in c.outbox && !C.Settled(c.outbox[k].status) && R.Permitted(R.Cleared(c), k.action)
               && k in d.outbox && d.outbox[k].status == Failed;
      var report :| report in d.reports && report.key == k;
      var i :| 0 <= i < |d.reports| && d.reports[i] == report;
      assert R.Tells(R.Cleared(c), c.outbox, d.outbox, report);
    }
    if AnyFailed(d.reports) {
      var i :| 0 <= i < |d.reports| && d.reports[i].Ran? && d.reports[i].status == Failed;
      assert d.reports[i] in d.reports && R.Tells(R.Cleared(c), c.outbox, d.outbox, d.reports[i]);
    }
  }

  /** What the sender is told, in terms of what happened: an event that is not admitted is answered with the reason; a
      failed engine, a drain that died and a row that was run and failed ask for another delivery; and anything else is
      processed, at the version the event has in the inbox. */
  lemma AnswersTellWhatHappened(c: Option<Case>, r: E.Records, p: Push)
    requires R.Enumerates(p.order)
    ensures var claim, after := I.Outcome(c, DeliveryOf(p)), Pushed(c, r, p);
            (after.response.NotClaimed? <==> !claim.claimed)
            && (after.response.NotClaimed? ==> after.response.reason == claim.reason)
            && (claim.claimed ==>
                  after.case_.Some? && p.eventId in after.case_.value.inbox
                  && var claimed := I.Claimed(c, DeliveryOf(p)).value;
                     (after.response == EngineFailed <==> EngineRaises(claimed, p))
                     && (after.response == CommandsFailed <==>
                           !EngineRaises(claimed, p) && (p.death.Some? || LeavesAFailure(Handled(claimed, p), r, p)))
                     && (after.response.Processed? ==>
                           after.response.version == after.case_.value.inbox[p.eventId].version
                           && after.case_.value.inbox[p.eventId].dispatched))
  {
    hide G.RunGraph, R.DrainedUntil, T.Writes, T.ApplyAll, T.Cut, T.Raises, AnyFailed, LeavesAFailure;
    if I.Outcome(c, DeliveryOf(p)).claimed {
      var claimed := I.Claimed(c, DeliveryOf(p)).value;
      T.RunsVisit(p.event, p.env, p.answers, claimed);
      T.WritesExtendTheOutbox(claimed, T.Cut(T.Writes(p.event, p.env, RunOf(claimed, p)), p.lives));
      if p.death.None? {
        FailuresAreReported(Handled(claimed, p), r, p);
      }
    }
  }
}
