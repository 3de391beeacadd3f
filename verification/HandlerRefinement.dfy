/** The two handlers - a pushed event and a decision from the console - are schedules of the step machine, so what
    holds for every schedule holds for every interleaving of their steps. */
module HandlerRefinement {

  import opened Basics
  import opened Store
  import opened Protocol
  import A = Approvals
  import B = RetryBound
  import D = DrainRefinement
  import G = Graph
  import I = Inbox
  import N = Ingress
  import Q = ProtocolSafety
  import R = Runner
  import T = Terminals
  import V = Review

  function WriteSteps(ws: seq<T.Write>): seq<Step> {
    if ws == [] then [] else WriteSteps(ws[..|ws| - 1]) + [GraphWrite(ws[|ws| - 1])]
  }

  lemma {:induction false} WritesAreSteps(n: nat, w: World, ws: seq<T.Write>)
    requires forall x :: x in ws ==> Legitimate(w.c, x)
    ensures RunFrom(n, w, WriteSteps(ws)) == w.(c := T.ApplyAll(w.c, ws))
    ensures T.ApplyAll(w.c, ws).supplier == w.c.supplier
    decreases |ws|
  {
    hide T.Apply;
    if ws == [] {
      Nothing(n, w);
      assert w.(c := w.c) == w;
    } else {
      var init, last := ws[..|ws| - 1], ws[|ws| - 1];
      WritesAreSteps(n, w, init);
      Extend(n, w, WriteSteps(init), GraphWrite(last));
      WriteKeepsSupplier(T.ApplyAll(w.c, init), last);
      assert last in ws;
    }
  }

  lemma WriteKeepsSupplier(c: Case, x: T.Write)
    ensures T.Apply(c, x).supplier == c.supplier
  {
  }

  function Drain(w: World, c: Case, p: N.Push): seq<Step> {
    D.DrainSchedule(w.nextId, c, p.order(c.outbox.Keys), p.calls, p.death)
  }

  /** What the handler of a pushed event does when nothing happens between its steps. */
  function PushSchedule(w: World, p: N.Push): seq<Step> {
    var d := N.DeliveryOf(p);
    var outcome := I.Outcome(Some(w.c), d);
    if !outcome.claimed then [Deliver(d)] + if outcome.reason == I.DuplicateEvent then Drain(w, w.c, p) else []
    else
      var c := I.Claimed(Some(w.c), d).value;
      T.RunsVisit(p.event, p.env, p.answers, c);
      var written := [Deliver(d)] + WriteSteps(T.Cut(T.Writes(p.event, p.env, N.RunOf(c, p)), p.lives));
      if N.EngineRaises(c, p) then written else written + [Mark(p.eventId)] + Drain(w, N.Handled(c, p), p)
  }

  /** The handler takes the machine exactly where the handler as one operation takes the case and the ERP. */
  lemma PushIsASchedule(n: nat, w: World, p: N.Push)
    requires n >= 1 && w.workers == map[] && R.Enumerates(p.order)
    ensures var after := N.Pushed(Some(w.c), w.records, p);
            var w' := RunFrom(n, w, PushSchedule(w, p));
            after.case_ == Some(w'.c) && after.records == w'.records && w'.workers == map[]
  {
    hide RunFrom, D.DrainSchedule, R.DrainedUntil, T.ApplyAll, T.Writes, G.RunGraph, Legitimate, WriteSteps,
         N.EngineRaises;
    var d := N.DeliveryOf(p);
    var outcome := I.Outcome(Some(w.c), d);
    var w1 := w.(c := I.Claimed(Some(w.c), d).value);
    Single(n, w, Deliver(d));
    if !outcome.claimed {
      assert w1 == w;
      if outcome.reason == I.DuplicateEvent {
        RunsCompose(n, w, [Deliver(d)], Drain(w, w.c, p));
        D.DrainIsASchedule(n, w, p.order(w.c.outbox.Keys), p.calls, p.death);
      } else {
        assert [Deliver(d)] + [] == [Deliver(d)];
      }
    } else {
      var c := w1.c;
      T.RunsVisit(p.event, p.env, p.answers, c);
      EngineIsSteps(n, w, w1, p);
      var ws := WriteSteps(T.Cut(T.Writes(p.event, p.env, N.RunOf(c, p)), p.lives));
      RunsCompose(n, w, [Deliver(d)], ws);
      if !N.EngineRaises(c, p) {
        var written := [Deliver(d)] + ws;
        var w2 := RunFrom(n, w, written);
        var w3 := w2.(c := N.Handled(c, p));
        MarkIsAStep(n, w2, c, p);
        RunsCompose(n, w, written, [Mark(p.eventId)]);
        RunsCompose(n, w, written + [Mark(p.eventId)], Drain(w, w3.c, p));
        D.DrainIsASchedule(n, w3, p.order(w3.c.outbox.Keys), p.calls, p.death);
      }
    }
  }

  lemma Single(n: nat, w: World, s: Step)
    ensures RunFrom(n, w, [s]) == Take(n, w, s)
  {
    StepByStep(n, w, s, s, s);
  }

  lemma EngineIsSteps(n: nat, w: World, w1: World, p: N.Push)
    ensures |N.RunOf(w1.c, p).trace| > 0
    ensures var ws := T.Cut(T.Writes(p.event, p.env, N.RunOf(w1.c, p)), p.lives);
            RunFrom(n, w1, WriteSteps(ws)) == w1.(c := N.Engine(w1.c, p))
  {
    hide RunFrom, T.ApplyAll, T.Writes, G.RunGraph, Legitimate, WriteSteps;
    T.RunsVisit(p.event, p.env, p.answers, w1.c);
    var ws := T.Cut(T.Writes(p.event, p.env, N.RunOf(w1.c, p)), p.lives);
    forall x | x in ws ensures Legitimate(w1.c, x) {
      GraphWritesAreLegitimate(w1.c, p.event, p.env, p.answers, x);
    }
    WritesAreSteps(n, w1, ws);
  }

  lemma MarkIsAStep(n: nat, w: World, c: Case, p: N.Push)
    requires w.c == N.Engine(c, p)
    ensures RunFrom(n, w, [Mark(p.eventId)]) == w.(c := N.Handled(c, p))
  {
    hide RunFrom, N.Engine;
    Single(n, w, Mark(p.eventId));
    assert w.(c := w.c) == w;
  }

  /* ---- an engine that goes on behind the handler's back ---- */

  /** Writes that come through late, one after each stretch of whatever else happens. */
  function Straggling(ws: seq<T.Write>, between: seq<seq<Step>>): seq<Step>
    requires |between| == |ws|
  {
    if ws == [] then []
    else
      var last := |ws| - 1;
      Straggling(ws[..last], between[..last]) + between[last] + [GraphWrite(ws[last])]
  }

  /** Where they lead: each lands on whatever has become of the case by then. */
  function StraggledTo(n: nat, w: World, ws: seq<T.Write>, between: seq<seq<Step>>): World
    requires |between| == |ws|
  {
    if ws == [] then w
    else
      var last := |ws| - 1;
      var before := RunFrom(n, StraggledTo(n, w, ws[..last], between[..last]), between[last]);
      before.(c := T.Apply(before.c, ws[last]))
  }

  lemma {:induction false} RunsKeepTheSupplier(n: nat, w: World, steps: seq<Step>)
    ensures RunFrom(n, w, steps).c.supplier == w.c.supplier
    decreases |steps|
  {
    hide Enabled;
    if |steps| > 0 {
      var last := |steps| - 1;
      RunsKeepTheSupplier(n, w, steps[..last]);
      var before := RunFrom(n, w, steps[..last]);
      if Enabled(n, before, steps[last]) { StepKeepsTheSupplier(n, before, steps[last]); }
    }
  }

  lemma StepKeepsTheSupplier(n: nat, w: World, s: Step)
    requires Enabled(n, w, s)
    ensures Next(n, w, s).c.supplier == w.c.supplier
  {
  }

  /** No write of a run is refused for coming late, whatever has happened since. */
  lemma {:induction false} StragglersLand(n: nat, w: World, ws: seq<T.Write>, between: seq<seq<Step>>)
    requires |between| == |ws| && forall x :: x in ws ==> Legitimate(w.c, x)
    ensures RunFrom(n, w, Straggling(ws, between)) == StraggledTo(n, w, ws, between)
    ensures StraggledTo(n, w, ws, between).c.supplier == w.c.supplier
    decreases |ws|
  {
    hide RunFrom, T.Apply, Legitimate;
    if ws == [] {
      Nothing(n, w);
    } else {
      var last := |ws| - 1;
      var init := Straggling(ws[..last], between[..last]);
      StragglersLand(n, w, ws[..last], between[..last]);
      RunsCompose(n, w, init, between[last]);
      var before := RunFrom(n, w, init + between[last]);
      RunsKeepTheSupplier(n, StraggledTo(n, w, ws[..last], between[..last]), between[last]);
      assert ws[last] in ws;
      SameSupplierSameWrites(w.c, before.c, ws[last]);
      Extend(n, w, init + between[last], GraphWrite(ws[last]));
      WriteKeepsSupplier(before.c, ws[last]);
    }
  }

  lemma SameSupplierSameWrites(a: Case, b: Case, x: T.Write)
    requires a.supplier == b.supplier
    ensures Legitimate(a, x) <==> Legitimate(b, x)
  {
  }

  /** The schedule of a push whose invocation fails after some writes while the engine makes the others later, with
      anything in between - redeliveries of the same event, other events, drains, decisions. */
  function StragglingPush(n: nat, w: World, p: N.Push, between: seq<seq<Step>>): seq<Step>
    requires p.lives.Some? && |between| == |Remaining(w, p)|
  {
    PushSchedule(w, p) + Straggling(Remaining(w, p), between)
  }

  /** The writes left to the engine when its invocation has failed. */
  function Remaining(w: World, p: N.Push): seq<T.Write>
    requires p.lives.Some?
  {
    var d := N.DeliveryOf(p);
    if !I.Outcome(Some(w.c), d).claimed then []
    else
      var c := I.Claimed(Some(w.c), d).value;
      T.RunsVisit(p.event, p.env, p.answers, c);
      var ws := T.Writes(p.event, p.env, N.RunOf(c, p));
      if p.lives.value <= |ws| then ws[p.lives.value..] else []
  }

  /** The handler leaves the machine where it leaves the case, and every remaining write lands later. All of it is a
      schedule, so authority and bounded retry hold throughout. Lifecycle facts do not: see `LateRequestTurnsBack`. */
  lemma StragglingPushIsASchedule(n: nat, supplier: string, steps: seq<Step>, p: N.Push, between: seq<seq<Step>>)
    requires n >= 1 && R.Enumerates(p.order) && p.lives.Some?
    requires var w := Run(n, supplier, steps); w.workers == map[] && |between| == |Remaining(w, p)|
    ensures var w := Run(n, supplier, steps);
            var handled := RunFrom(n, w, PushSchedule(w, p));
            var after := N.Pushed(Some(w.c), w.records, p);
            var end := Run(n, supplier, steps + StragglingPush(n, w, p, between));
            after.case_ == Some(handled.c) && after.records == handled.records
            && end == StraggledTo(n, handled, Remaining(w, p), between)
            && Q.Traced(end) && B.Budgeted(n, end)
  {
    hide RunFrom, PushSchedule, N.Pushed, Q.Traced, B.Budgeted, Remaining, Legitimate, StraggledTo, Straggling;
    var w := Run(n, supplier, steps);
    var push, rest := PushSchedule(w, p), Remaining(w, p);
    PushIsASchedule(n, w, p);
    var handled := RunFrom(n, w, push);
    RunsKeepTheSupplier(n, w, push);
    RemainingAreLegitimate(w, p);
    forall x | x in rest ensures Legitimate(handled.c, x) { SameSupplierSameWrites(w.c, handled.c, x); }
    StragglersLand(n, handled, rest, between);
    RunsCompose(n, w, push, Straggling(rest, between));
    RunsCompose(n, Initial(supplier), steps, push + Straggling(rest, between));
    Q.RunsAreTraced(n, supplier, steps + StragglingPush(n, w, p, between));
    B.RunsAreBudgeted(n, supplier, steps + StragglingPush(n, w, p, between));
  }

  lemma RemainingAreLegitimate(w: World, p: N.Push)
    requires p.lives.Some?
    ensures forall x :: x in Remaining(w, p) ==> Legitimate(w.c, x)
  {
    hide T.Writes, G.RunGraph, Legitimate;
    var d := N.DeliveryOf(p);
    if I.Outcome(Some(w.c), d).claimed {
      var c := I.Claimed(Some(w.c), d).value;
      T.RunsVisit(p.event, p.env, p.answers, c);
      var ws := T.Writes(p.event, p.env, N.RunOf(c, p));
      forall x | x in Remaining(w, p) ensures Legitimate(w.c, x) {
        assert x in ws;
        GraphWritesAreLegitimate(c, p.event, p.env, p.answers, x);
        SameSupplierSameWrites(c, w.c, x);
      }
    }
  }

  /** The decision handler likewise: the commit, and, if it was one, a drain until it ends or dies. */
  function DecisionSchedule(caseId: string, w: World, f: V.Form, at: V.Setting): seq<Step> {
    var a := V.AttemptOf(caseId, f);
    [Decide(a)]
    + if A.Outcome(Some(w.c), a).committed then
        var c := A.Decided(Some(w.c), a).value;
        D.DrainSchedule(w.nextId, c, at.order(c.outbox.Keys), at.calls, at.death)
      else []
  }

  lemma DecisionIsASchedule(n: nat, caseId: string, w: World, f: V.Form, at: V.Setting)
    requires n >= 1 && w.workers == map[] && R.Enumerates(at.order)
    ensures var after := V.Reviewed(caseId, Some(w.c), w.records, f, at);
            var w' := RunFrom(n, w, DecisionSchedule(caseId, w, f, at));
            after.case_ == Some(w'.c) && after.records == w'.records && w'.workers == map[]
  {
    hide RunFrom, D.DrainSchedule, R.DrainedUntil;
    var a := V.AttemptOf(caseId, f);
    Single(n, w, Decide(a));
    if A.Outcome(Some(w.c), a).committed {
      var w1 := AfterDecide(w, a);
      var stream := at.order(w1.c.outbox.Keys);
      RunsCompose(n, w, [Decide(a)], D.DrainSchedule(w.nextId, w1.c, stream, at.calls, at.death));
      D.DrainIsASchedule(n, w1, stream, at.calls, at.death);
    } else {
      assert [Decide(a)] + [] == [Decide(a)];
    }
  }
}
