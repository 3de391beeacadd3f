/** No laundering by time: runs without a screening of their own never make the stored band less severe, wherever
    they stop. */
module Laundering {

  import opened Basics
  import opened Store
  import opened Graph
  import I = Injection
  import S = GraphSafety
  import T = Terminals

  /** The severity a case stands at: no readable stored verdict counts as blocked. */
  function Standing(p: PolicyBlock): nat {
    if p.Stored? then Severity(p.verdict.band) else Severity(Blocked)
  }

  /** An event, what its run is given, how many of its writes it lives to make, and what the rest of the case document
      looks like by then. */
  datatype Job = Job(event: Event, env: Environment, answers: Answers, lives: Option<nat>, rest: Case)

  function JobRun(job: Job, stored: PolicyBlock): Run {
    RunGraph(job.event, job.env, job.answers, job.rest.(policy := stored))
  }

  /** The policy block a job leaves: a run that raises, strays or dies before its outcome write leaves the old one. */
  function PolicyAfter(job: Job, stored: PolicyBlock): PolicyBlock {
    T.ApplyAll(job.rest.(policy := stored), T.Cut(T.Writes(job.event, job.env, JobRun(job, stored)), job.lives)).policy
  }

  /** Only a run that makes all its writes stores its verdict; any other leaves the block it found. */
  lemma OnlyWholeRunsStore(job: Job, stored: PolicyBlock)
    ensures var run := JobRun(job, stored);
            var ws := T.Writes(job.event, job.env, run);
            PolicyAfter(job, stored) ==
              if ws != [] && T.Cut(ws, job.lives) == ws && run.ctx.policy.Some? then Stored(run.ctx.policy.value)
                else stored
  {
    hide RunFrom, S.DecisionOf, T.CommandScope, T.OutcomePhase;
    var c, run := job.rest.(policy := stored), JobRun(job, stored);
    var ws := T.Writes(job.event, job.env, run);
    if ws != [] {
      var init, last := ws[..|ws| - 1], ws[|ws| - 1];
      assert last.OutcomeWrite? && last.policy == run.ctx.policy;
      assert forall w :: w in init ==> !w.OutcomeWrite? by {
        if !End(run).QuarantineCase? { ClaimStepsStoreNothing(job.event, job.env, run); }
      }
      NoOutcomeNoVerdict(c, init);
      if T.Cut(ws, job.lives) != ws {
        var cut := T.Cut(ws, job.lives);
        assert forall w :: w in cut ==> w in init;
        NoOutcomeNoVerdict(c, cut);
      }
    }
  }

  lemma ClaimStepsStoreNothing(e: Event, env: Environment, run: Run)
    requires |run.trace| > 0 && T.Decides(e, env, run)
    ensures var d := S.DecisionOf(e, env, run).decision;
            forall w :: w in T.ClaimStep(d, T.CommandScope(env.catalog, e.department)) ==> !w.OutcomeWrite?
  {
    hide S.DecisionOf, T.CommandScope;
    var d := S.DecisionOf(e, env, run).decision;
    T.ClaimWritesClaim(d.commands, d.cycle, T.CommandScope(env.catalog, e.department));
  }

  lemma {:induction false} NoOutcomeNoVerdict(c: Case, ws: seq<T.Write>)
    requires forall w :: w in ws ==> !w.OutcomeWrite?
    ensures T.ApplyAll(c, ws).policy == c.policy
  {
    if ws != [] {
      assert ws[|ws| - 1] in ws;
      NoOutcomeNoVerdict(c, ws[..|ws| - 1]);
    }
  }

  /** A run that did not screen the supplier, or that left the stored block as it found it. */
  predicate StoresNoScreening(job: Job, stored: PolicyBlock) {
    JobRun(job, stored).ctx.screening.None? || PolicyAfter(job, stored) == stored
  }

  lemma OneRunNeverLaunders(job: Job, stored: PolicyBlock)
    requires StoresNoScreening(job, stored)
    ensures Standing(PolicyAfter(job, stored)) >= Standing(stored)
  {
    hide RunFrom, Visit, I.Tainted, PolicyAfter;
    var c := job.rest.(policy := stored);
    S.GraphIsSound(job.event, job.env, job.answers, c);
    OnlyWholeRunsStore(job, stored);
  }

  /** The stored policy block after a series of jobs, one at a time. */
  function PolicyThrough(start: PolicyBlock, jobs: seq<Job>): PolicyBlock {
    if jobs == [] then start else PolicyAfter(jobs[|jobs| - 1], PolicyThrough(start, jobs[..|jobs| - 1]))
  }

  ghost predicate NoScreeningStored(start: PolicyBlock, jobs: seq<Job>) {
    forall i :: 0 <= i < |jobs| ==> StoresNoScreening(jobs[i], PolicyThrough(start, jobs[..i]))
  }

  /** Between two events whose screening was stored, time and paper alone never make the stored band less severe:
      whatever runs come in between, finished, raised, strayed or dead after any write, and whatever else the case
      document holds. */
  lemma {:induction false} TimeNeverLaunders(start: PolicyBlock, jobs: seq<Job>)
    requires NoScreeningStored(start, jobs)
    ensures Standing(PolicyThrough(start, jobs)) >= Standing(start)
  {
    hide PolicyAfter, StoresNoScreening, Standing;
    if jobs != [] {
      var init := jobs[..|jobs| - 1];
      assert forall i :: 0 <= i < |init| ==> init[i] == jobs[i] && init[..i] == jobs[..i];
      TimeNeverLaunders(start, init);
      OneRunNeverLaunders(jobs[|jobs| - 1], PolicyThrough(start, init));
    }
  }
}
