/** Decisions answer the event they were asked about: over every schedule, a decision that commits at a version was
    preceded by an outcome that parked the case at that very version. */
module Parking {

  import opened Basics
  import opened Store
  import opened Protocol
  import A = Approvals

  /** The step parks the case. */
  predicate Parks(s: Step) { s.GraphWrite? && s.w.OutcomeWrite? && s.w.phase == AwaitingApproval }

  /** Before the end of the schedule, but after the case came to its present version, an outcome parked it. */
  ghost predicate ParkedSince(n: nat, supplier: string, steps: seq<Step>) {
    exists j :: 0 <= j < |steps| && Parks(steps[j])
                && Run(n, supplier, steps[..j]).c.version == Run(n, supplier, steps).c.version
  }

  lemma StepsRaiseVersions(n: nat, w: World, s: Step)
    requires Enabled(n, w, s)
    ensures var w' := Next(n, w, s);
            w.c.version <= w'.c.version
            && (w'.c.phase == AwaitingApproval && !Parks(s) ==>
                  w.c.phase == AwaitingApproval && w'.c.version == w.c.version)
            && (Parks(s) ==> w'.c.version == w.c.version)
  {
  }

  lemma {:induction false} ParkedCasesWereParked(n: nat, supplier: string, steps: seq<Step>)
    requires Run(n, supplier, steps).c.phase == AwaitingApproval
    ensures ParkedSince(n, supplier, steps)
    decreases |steps|
  {
    hide Enabled, Next;
    if |steps| > 0 {
      var init, last := steps[..|steps| - 1], steps[|steps| - 1];
      var w := Run(n, supplier, init);
      if Enabled(n, w, last) {
        StepsRaiseVersions(n, w, last);
      }
      if Enabled(n, w, last) && Parks(last) {
        assert steps[..|steps| - 1] == init;
      } else {
        ParkedCasesWereParked(n, supplier, init);
        var j :| 0 <= j < |init| && Parks(init[j])
                 && Run(n, supplier, init[..j]).c.version == Run(n, supplier, init).c.version;
        assert init[..j] == steps[..j] && init[j] == steps[j];
      }
    }
  }

  /** A decision that commits at a version answers an outcome that parked the case at that version, recorded after the
      event that opened the version was claimed; no event has been admitted in between. */
  lemma DecisionsFollowTheirParking(n: nat, supplier: string, steps: seq<Step>, a: A.Attempt)
    requires A.Outcome(Some(Run(n, supplier, steps).c), a).committed
    ensures ParkedSince(n, supplier, steps) && a.expected == Run(n, supplier, steps).c.version
  {
    hide Run;
    ParkedCasesWereParked(n, supplier, steps);
  }
}
