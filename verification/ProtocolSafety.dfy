/** Authority over every interleaving: which drains may make a permissive call, and on whose decision. */
module ProtocolSafety {

  import opened Basics
  import opened Store
  import opened Protocol
  import A = Approvals
  import C = Commands
  import E = Erp
  import L = Lifecycle
  import R = Runner

  /* ---- authority ---- */

  /** The decision a view carries, if any, was committed earlier in the log on a parked case under review. */
  ghost predicate DecidedBefore(log: seq<Obs>, j: nat, view: Case) {
    view.approval.Some? ==>
      exists m :: 0 <= m < j && m < |log| && log[m] == Decided(view.approval.value, AwaitingApproval, Some(Review))
  }

  /** Before position `i`, drain `id` read the case as `view`, decision and all. */
  ghost predicate ReadBy(log: seq<Obs>, i: nat, id: nat, view: Case) {
    exists j :: 0 <= j < i && j < |log| && log[j] == CaseRead(id, view) && DecidedBefore(log, j, view)
  }

  /** A drain reads the case once. */
  ghost predicate OneRead(log: seq<Obs>, nextId: nat) {
    (forall i :: 0 <= i < |log| && log[i].CaseRead? ==> log[i].id < nextId)
    && (forall i, j :: 0 <= i < j < |log| && log[i].CaseRead? && log[j].CaseRead? ==> log[i].id != log[j].id)
  }

  /** Every permissive call was made by a drain whose read of the case cleared it. */
  ghost predicate Authorised(log: seq<Obs>) {
    forall i :: 0 <= i < |log| && log[i].Called? && !L.Restrictive(log[i].key.action) ==>
      exists view :: ReadBy(log, i, log[i].id, view) && R.Cleared(view)
  }

  ghost predicate ParkedUnderReview(c: Case) {
    c.phase == AwaitingApproval ==> GateBand(c) == Some(Review)
  }

  ghost predicate Traced(w: World) {
    ParkedUnderReview(w.c) && DecidedBefore(w.log, |w.log|, w.c) && OneRead(w.log, w.nextId) && Authorised(w.log)
    && forall id :: id in w.workers ==> id < w.nextId && ReadBy(w.log, |w.log|, id, w.workers[id].view)
  }

  lemma LongerLog(log: seq<Obs>, o: Obs)
    ensures forall j: nat, view :: DecidedBefore(log, j, view) && j <= |log| ==> DecidedBefore(log + [o], j, view)
    ensures forall i: nat, id, view :: ReadBy(log, i, id, view) && i <= |log| ==> ReadBy(log + [o], i, id, view)
    ensures forall id, view :: ReadBy(log, |log|, id, view) ==> ReadBy(log + [o], |log| + 1, id, view)
    ensures forall view :: DecidedBefore(log, |log|, view) ==> DecidedBefore(log + [o], |log| + 1, view)
  {
    var longer := log + [o];
    assert forall m :: 0 <= m < |log| ==> longer[m] == log[m];
    forall j: nat, view | DecidedBefore(log, j, view) && j <= |log| ensures DecidedBefore(longer, j, view) {
      if view.approval.Some? {
        var m :| 0 <= m < j && m < |log| && log[m] == Decided(view.approval.value, AwaitingApproval, Some(Review));
        assert longer[m] == log[m];
      }
    }
    forall i: nat, id, view | ReadBy(log, i, id, view) && i <= |log| ensures ReadBy(longer, i, id, view) {
      var j :| 0 <= j < i && j < |log| && log[j] == CaseRead(id, view) && DecidedBefore(log, j, view);
      assert longer[j] == log[j] && DecidedBefore(longer, j, view);
    }
    forall id, view | ReadBy(log, |log|, id, view) ensures ReadBy(longer, |log| + 1, id, view) {
      var j :| 0 <= j < |log| && j < |log| && log[j] == CaseRead(id, view) && DecidedBefore(log, j, view);
      assert longer[j] == log[j] && DecidedBefore(longer, j, view);
    }
    forall view | DecidedBefore(log, |log|, view) ensures DecidedBefore(longer, |log| + 1, view) {
      if view.approval.Some? {
        var m :| 0 <= m < |log| && m < |log| && log[m] == Decided(view.approval.value, AwaitingApproval, Some(Review));
        assert longer[m] == log[m];
      }
    }
  }

  /** An observation that is neither a read of the case nor an unauthorised call keeps the log in order. */
  lemma LogKeeps(log: seq<Obs>, o: Obs, nextId: nat)
    requires OneRead(log, nextId) && Authorised(log) && !o.CaseRead?
    requires o.Called? && !L.Restrictive(o.key.action) ==>
               exists view :: ReadBy(log, |log|, o.id, view) && R.Cleared(view)
    ensures OneRead(log + [o], nextId) && Authorised(log + [o])
  {
    hide R.Cleared, DecidedBefore;
    var longer := log + [o];
    LongerLog(log, o);
    forall i | 0 <= i < |longer| && longer[i].Called? && !L.Restrictive(longer[i].key.action)
      ensures exists view :: ReadBy(longer, i, longer[i].id, view) && R.Cleared(view)
    {
      if i < |log| {
        assert longer[i] == log[i];
        var view :| ReadBy(log, i, log[i].id, view) && R.Cleared(view);
        assert ReadBy(longer, i, longer[i].id, view);
      } else {
        var view :| ReadBy(log, |log|, o.id, view) && R.Cleared(view);
        assert ReadBy(longer, i, longer[i].id, view);
      }
    }
  }

  /** The parts of a case that authority rests on. */
  lemma CaseStepsKeepTraced(n: nat, w: World, s: Step)
    requires Traced(w) && Enabled(n, w, s) && (s.Deliver? || s.Mark? || s.GraphWrite?)
    ensures Traced(Next(n, w, s))
  {
    hide OneRead, Authorised, ReadBy, C.Claimed;
    var w' := Next(n, w, s);
    assert ParkedUnderReview(w'.c);
    assert w'.c.approval == w.c.approval && w'.log == w.log;
  }

  lemma DecideKeepsTraced(w: World, a: A.Attempt)
    requires Traced(w)
    ensures Traced(AfterDecide(w, a))
  {
    hide OneRead, Authorised, ReadBy;
    var w' := AfterDecide(w, a);
    if A.Outcome(Some(w.c), a).committed {
      var o := Decided(A.Record(w.c, a), w.c.phase, GateBand(w.c));
      LogKeeps(w.log, o, w.nextId);
      LongerLog(w.log, o);
      assert w'.log[|w.log|] == Decided(w'.c.approval.value, AwaitingApproval, Some(Review));
    }
  }

  lemma BeginKeepsTraced(n: nat, w: World)
    requires Traced(w) && Enabled(n, w, Begin)
    ensures Traced(Next(n, w, Begin))
  {
    hide R.Cleared, DecidedBefore;
    var o := CaseRead(w.nextId, w.c);
    var w' := Next(n, w, Begin);
    LongerLog(w.log, o);
    assert w'.log[|w.log|] == o && DecidedBefore(w'.log, |w.log|, w.c);
    assert ReadBy(w'.log, |w'.log|, w.nextId, w.c);
    assert DecidedBefore(w'.log, |w'.log|, w'.c);
    forall i | 0 <= i < |w'.log| && w'.log[i].Called? && !L.Restrictive(w'.log[i].key.action)
      ensures exists view :: ReadBy(w'.log, i, w'.log[i].id, view) && R.Cleared(view)
    {
      assert w'.log[i] == w.log[i];
      var view :| ReadBy(w.log, i, w.log[i].id, view) && R.Cleared(view);
      assert ReadBy(w'.log, i, w'.log[i].id, view);
    }
  }

  lemma WorkerStepsKeepTraced(n: nat, w: World, s: Step)
    requires Traced(w) && Enabled(n, w, s)
             && (s.ReadLedger? || s.Refuse? || s.Start? || s.Respond? || s.Record? || s.Stop? || s.Land?)
    ensures Traced(Next(n, w, s))
  {
    hide OneRead, Authorised, ReadBy, DecidedBefore, R.Cleared, Requested, Returns, C.Succeeded, C.FailedOnce, E.Apply;
    var w' := Next(n, w, s);
    assert w'.c.approval == w.c.approval && w'.c.phase == w.c.phase && w'.c.policy == w.c.policy;
    SameDecision(w.c, w'.c);
    if w'.log != w.log {
      var o := w'.log[|w.log|];
      assert w'.log == w.log + [o];
      if s.Start? && !L.Restrictive(s.key.action) {
        assert ReadBy(w.log, |w.log|, s.id, w.workers[s.id].view) && R.Cleared(w.workers[s.id].view);
      }
      LogKeeps(w.log, o, w.nextId);
      LongerLog(w.log, o);
    }
  }

  lemma SameDecision(a: Case, b: Case)
    requires a.approval == b.approval
    ensures forall log, j: nat :: DecidedBefore(log, j, a) ==> DecidedBefore(log, j, b)
  {
  }

  lemma {:induction false} RunsAreTraced(n: nat, supplier: string, steps: seq<Step>)
    ensures Traced(Run(n, supplier, steps))
    decreases |steps|
  {
    hide Traced, Next, Enabled;
    if |steps| == 0 {
      InitialIsTraced(supplier);
    } else {
      var w := Run(n, supplier, steps[..|steps| - 1]);
      var s := steps[|steps| - 1];
      RunsAreTraced(n, supplier, steps[..|steps| - 1]);
      if Enabled(n, w, s) {
        if s.Deliver? || s.Mark? || s.GraphWrite? { CaseStepsKeepTraced(n, w, s); }
        else if s.Decide? { DecideStep(n, w, s); DecideKeepsTraced(w, s.a); }
        else if s.Begin? { BeginKeepsTraced(n, w); }
        else { WorkerStepsKeepTraced(n, w, s); }
      }
    }
  }

  lemma InitialIsTraced(supplier: string)
    ensures Traced(Initial(supplier))
  {
  }

  lemma DecideStep(n: nat, w: World, s: Step)
    requires s.Decide? && Enabled(n, w, s)
    ensures Next(n, w, s) == AfterDecide(w, s.a)
  {
  }

  lemma OnlyRead(log: seq<Obs>, nextId: nat, j: nat)
    requires OneRead(log, nextId) && j < |log| && log[j].CaseRead?
    ensures forall k :: 0 <= k < |log| && log[k].CaseRead? && log[k].id == log[j].id ==> k == j
  {
  }

  /** In every interleaving, a permissive call belongs to a drain whose single read of the case found either a
      clear gate and no applicable decision, or an approval at exactly the version it read; and that approval
      had been committed while the case was parked and its stored gate band was review. */
  lemma PermissiveCallsAreAuthorised(n: nat, supplier: string, steps: seq<Step>, i: nat)
    requires var log := Run(n, supplier, steps).log;
             i < |log| && log[i].Called? && log[i].key.action != L.ApplyHold
    ensures var log := Run(n, supplier, steps).log;
            exists j, view :: 0 <= j < i && log[j] == CaseRead(log[i].id, view)
              && (forall k :: 0 <= k < |log| && log[k].CaseRead? && log[k].id == log[i].id ==> k == j)
              && if R.Applies(view) then
                   view.approval.value.decision == Approve && view.approval.value.version == view.version
                   && exists m :: 0 <= m < j && log[m] == Decided(view.approval.value, AwaitingApproval, Some(Review))
                 else GateBand(view) == Some(Clear)
  {
    hide Run;
    var log := Run(n, supplier, steps).log;
    RunsAreTraced(n, supplier, steps);
    var view :| ReadBy(log, i, log[i].id, view) && R.Cleared(view);
    var j :| 0 <= j < i && j < |log| && log[j] == CaseRead(log[i].id, view) && DecidedBefore(log, j, view);
    OnlyRead(log, Run(n, supplier, steps).nextId, j);
  }
}
