/** Whole histories of one case: pushes, decisions and sweeps in any order, each handled before the next. */
module Deliveries {

  import opened Basics
  import opened Store
  import E = Erp
  import G = Graph
  import I = Inbox
  import N = Ingress
  import R = Runner
  import T = Terminals
  import V = Review

  datatype Handler =
    | OnPush(p: N.Push)
    | OnDecision(caseId: string, f: V.Form, at: V.Setting)
    | OnSweep(order: set<Key> -> seq<Key>, calls: Key -> E.Answer, death: Option<R.Death>)

  datatype Mission = Mission(case_: Option<Case>, records: E.Records)

  function Handle(m: Mission, h: Handler): Mission {
    match h
    case OnPush(p) => var a := N.Pushed(m.case_, m.records, p); Mission(a.case_, a.records)
    case OnDecision(caseId, f, at) =>
      var a := V.Reviewed(caseId, m.case_, m.records, f, at); Mission(a.case_, a.records)
    case OnSweep(order, calls, death) =>
      if m.case_.None? then m
      else
        var d := R.DrainedUntil(m.case_.value, m.records, order(m.case_.value.outbox.Keys), calls, death);
        Mission(Some(m.case_.value.(outbox := d.outbox)), d.records)
  }

  function After(hs: seq<Handler>): Mission {
    if hs == [] then Mission(None, E.Records({}, {}, multiset{}, multiset{}))
    else Handle(After(hs[..|hs| - 1]), hs[|hs| - 1])
  }

  /** The delivery reaches the engine. */
  predicate ToEngine(m: Mission, p: N.Push) { I.Outcome(m.case_, N.DeliveryOf(p)).claimed }

  /** And the engine returns. */
  predicate Returns(m: Mission, p: N.Push) {
    ToEngine(m, p) && I.Claimed(m.case_, N.DeliveryOf(p)).Some?
      && !N.EngineRaises(I.Claimed(m.case_, N.DeliveryOf(p)).value, p)
  }

  predicate Knows(m: Mission, e: string) { m.case_.Some? && e in m.case_.value.inbox }

  predicate Marked(m: Mission, e: string) { Knows(m, e) && m.case_.value.inbox[e].dispatched }

  predicate Delivers(h: Handler, e: string) { h.OnPush? && h.p.eventId == e }

  /** What one handler does to the inbox. */
  lemma HandlerMovesInbox(m: Mission, h: Handler, e: string)
    ensures var m' := Handle(m, h);
            (Knows(m', e) <==> Knows(m, e) || (Delivers(h, e) && ToEngine(m, h.p)))
            && (Marked(m', e) <==> Marked(m, e) || (Delivers(h, e) && Returns(m, h.p)))
            && (Knows(m, e) ==> m'.case_.value.inbox[e].version == m.case_.value.inbox[e].version)
  {
    hide R.DrainedUntil, R.Drained, T.ApplyAll, G.RunGraph, T.Writes, T.Raises, V.AttemptOf;
    if h.OnPush? && I.Claimed(m.case_, N.DeliveryOf(h.p)).Some? {
      var c := I.Claimed(m.case_, N.DeliveryOf(h.p)).value;
      T.RunsVisit(h.p.event, h.p.env, h.p.answers, c);
      T.WritesExtendTheOutbox(c, T.Cut(T.Writes(h.p.event, h.p.env, N.RunOf(c, h.p)), h.p.lives));
    }
  }

  /** Some earlier delivery of `e` reached the engine. */
  ghost predicate Reached(hs: seq<Handler>, e: string) {
    exists i :: 0 <= i < |hs| && Delivers(hs[i], e) && ToEngine(After(hs[..i]), hs[i].p)
  }

  /** Some earlier delivery of `e` reached it and came back. */
  ghost predicate CameBack(hs: seq<Handler>, e: string) {
    exists i :: 0 <= i < |hs| && Delivers(hs[i], e) && Returns(After(hs[..i]), hs[i].p)
  }

  lemma OneMore(hs: seq<Handler>, e: string)
    requires hs != []
    ensures var init, last := hs[..|hs| - 1], hs[|hs| - 1];
            (Reached(hs, e) <==> Reached(init, e) || (Delivers(last, e) && ToEngine(After(init), last.p)))
            && (CameBack(hs, e) <==> CameBack(init, e) || (Delivers(last, e) && Returns(After(init), last.p)))
  {
    hide ToEngine, Returns, After;
    var init := hs[..|hs| - 1];
    assert forall i :: 0 <= i < |init| ==> init[i] == hs[i] && init[..i] == hs[..i];
    if i :| 0 <= i < |init| && Delivers(init[i], e) && ToEngine(After(init[..i]), init[i].p) {
      assert Delivers(hs[i], e) && ToEngine(After(hs[..i]), hs[i].p);
    }
    if i :| 0 <= i < |init| && Delivers(init[i], e) && Returns(After(init[..i]), init[i].p) {
      assert Delivers(hs[i], e) && Returns(After(hs[..i]), hs[i].p);
    }
  }

  lemma {:induction false} InboxRemembers(hs: seq<Handler>, e: string)
    ensures Knows(After(hs), e) <==> Reached(hs, e)
    ensures Marked(After(hs), e) <==> CameBack(hs, e)
  {
    hide Handle, Knows, Marked, Delivers, ToEngine, Returns, Reached, CameBack;
    if hs == [] {
      Empty(hs, e);
    } else {
      InboxRemembers(hs[..|hs| - 1], e);
      OneMore(hs, e);
      HandlerMovesInbox(After(hs[..|hs| - 1]), hs[|hs| - 1], e);
    }
  }

  lemma Empty(hs: seq<Handler>, e: string)
    requires hs == []
    ensures !Knows(After(hs), e) && !Marked(After(hs), e) && !Reached(hs, e) && !CameBack(hs, e)
  {
  }

  /** Whatever has happened to the case, a delivery reaches the engine exactly when no earlier delivery of its event
      came back from it, and either one had already got there, or the event fits the version it was written against.
      So an event is driven until the engine has returned once, and never again. */
  lemma EngineRunsUntilDispatched(hs: seq<Handler>, p: N.Push)
    ensures ToEngine(After(hs), p) <==>
              !CameBack(hs, p.eventId)
              && (Reached(hs, p.eventId)
                  || p.expected.None?
                  || p.expected.value == if After(hs).case_.Some? then After(hs).case_.value.version else 0)
    ensures CameBack(hs, p.eventId) ==>
              N.Pushed(After(hs).case_, After(hs).records, p).response == N.NotClaimed(I.DuplicateEvent)
  {
    hide After, N.DrainOf, N.Handled, N.Engine, N.EngineRaises, CameBack, Reached;
    InboxRemembers(hs, p.eventId);
  }
}
