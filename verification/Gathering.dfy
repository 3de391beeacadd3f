/** What a run of the graph gathers before it is judged, written down without following its edges, and the proof that
    every run gathers exactly that: nothing declared is skipped and nothing undeclared is asked. */
module Gathering {

  import opened Basics
  import opened Store
  import opened Graph
  import G = Grounding
  import I = Injection
  import J = Json
  import R = Risk
  import S = GraphSafety

  /* ---- the account ---- */

  predicate ByClock(e: Event) { e.eventType == "renewal_due" || e.eventType == "evidence_overdue" }

  /** The accepted route of an event that is not the clock's. */
  function Routed(e: Event, env: Environment, ans: Answers): Option<seq<string>> {
    if ByClock(e) then None else RouteOf(e, env, ans.proposal)
  }

  predicate InRoute(e: Event, env: Environment, ans: Answers, agent: string) {
    Routed(e, env, ans).Some? && agent in Routed(e, env, ans).value
  }

  /** An extraction is asked for: evidence is in the route, a document is named, and it is not tainted. */
  predicate AsksEvidence(e: Event, env: Environment, ans: Answers) {
    InRoute(e, env, ans, "evidence") && e.hasRef && !DocumentTainted(e, env)
  }

  /** The `k`-th extraction is grounded in the document, which could be loaded. */
  predicate Good(e: Event, env: Environment, ans: Answers, k: nat) {
    Derivative(e, env).Some? && G.Validate(ans.extraction(k), Derivative(e, env).value, env.digit).Grounded?
  }

  /** The case is judged: the clock's always, others with an accepted route and, if it was asked for, with evidence from
      the first extraction or the second. */
  predicate Judged(e: Event, env: Environment, ans: Answers) {
    ByClock(e)
    || (Routed(e, env, ans).Some? && (AsksEvidence(e, env, ans) ==> Good(e, env, ans, 0) || Good(e, env, ans, 1)))
  }

  function Evidence(e: Event, env: Environment, ans: Answers): Option<J.Json> {
    if !AsksEvidence(e, env, ans) then None
    else if Good(e, env, ans, 0) then Some(ans.extraction(0)) else Some(ans.extraction(1))
  }

  /** The screening, made if and only if compliance is in the route. */
  function Screening(e: Event, env: Environment, ans: Answers): Option<J.Json> {
    if InRoute(e, env, ans, "compliance") && !ReadScreen(ans.service).Broken?
    then Some(ScreenJson(ReadScreen(ans.service)))
    else None
  }

  /** Whether the interpreter speaks only of screened candidates, in the allowed words. */
  predicate Speaks(s: Screen, reading: Reading) {
    s.Answered? && reading.Parsed?
    && (reading.recommendation == "corroborate_block" || reading.recommendation == "escalate_review"
        || reading.recommendation == "note_clear")
    && forall id :: id in reading.candidateIds ==>
         exists i :: 0 <= i < |s.candidates| && J.Object(s.candidates[i]).Get("id") == J.Str(id)
  }

  /** Its record, made if and only if there were candidates to interpret. */
  function Opinion(e: Event, env: Environment, ans: Answers): Option<Compliance> {
    var s := ReadScreen(ans.service);
    if InRoute(e, env, ans, "compliance") && s.Answered? && s.candidates != []
    then Some(Compliance(Speaks(s, ans.reading), if ans.reading.Parsed? then ans.reading.recommendation else ""))
    else None
  }

  /** What the gate judges. */
  ghost predicate Gathered(ctx: Context, e: Event, env: Environment, ans: Answers, snapshot: Case) {
    ctx.snapshot == snapshot && ctx.tainted == DocumentTainted(e, env) && ctx.evidence == Evidence(e, env, ans)
    && ctx.screening == Screening(e, env, ans) && ctx.compliance == Opinion(e, env, ans)
  }

  /* ---- every run keeps to it ---- */

  /** Loaded, and nothing gathered yet. */
  ghost predicate Empty(ctx: Context, e: Event, env: Environment, snapshot: Case) {
    ctx.snapshot == snapshot && ctx.derivative == Derivative(e, env) && ctx.tainted == DocumentTainted(e, env)
    && ctx.evidence.None? && ctx.screening.None? && ctx.compliance.None? && ctx.policy.None?
  }

  ghost predicate OnRoute(ctx: Context, e: Event, env: Environment, ans: Answers) {
    !ByClock(e) && Routed(e, env, ans) == Some(ctx.route)
  }

  /** Evidence has been dealt with. */
  ghost predicate Evidenced(ctx: Context, e: Event, env: Environment, ans: Answers, snapshot: Case) {
    ctx.snapshot == snapshot && ctx.tainted == DocumentTainted(e, env) && ctx.policy.None? && Judged(e, env, ans)
    && ctx.evidence == Evidence(e, env, ans)
  }

  /** What holds when a run stands at a node. */
  ghost predicate At(n: Node, ctx: Context, e: Event, env: Environment, ans: Answers, snapshot: Case) {
    match n
    case LoadCaseState => ctx == Blank(snapshot)
    case Coordinator => !ByClock(e) && Empty(ctx, e, env, snapshot) && ctx.attempts == 0
    case ApplyRoute => !ByClock(e) && Empty(ctx, e, env, snapshot) && ctx.attempts == 0
    case EvidenceAgent => Asking(ctx, e, env, ans, snapshot)
    case ValidateEvidence => Asking(ctx, e, env, ans, snapshot)
    case ScreenSupplier =>
      Evidenced(ctx, e, env, ans, snapshot) && OnRoute(ctx, e, env, ans) && "compliance" in ctx.route
      && ctx.screening.None? && ctx.compliance.None?
    case ComplianceAgent => Interpreting(ctx, e, env, ans, snapshot)
    case ApplyCompliance => Interpreting(ctx, e, env, ans, snapshot)
    case AssessRisk => Judged(e, env, ans) && Gathered(ctx, e, env, ans, snapshot) && ctx.policy.None?
    case QuarantineCase =>
      if ctx.policy.None? then !Judged(e, env, ans) && ctx.evidence.None? && ctx.screening.None?
      else Passed(ctx, e, env, ans, snapshot)
    case CommitCommands => Passed(ctx, e, env, ans, snapshot)
    case ParkCase => Passed(ctx, e, env, ans, snapshot)
  }

  ghost predicate Asking(ctx: Context, e: Event, env: Environment, ans: Answers, snapshot: Case) {
    Empty(ctx, e, env, snapshot) && OnRoute(ctx, e, env, ans) && AsksEvidence(e, env, ans) && ctx.attempts <= 1
    && (ctx.attempts == 1 ==> Derivative(e, env).Some? && !Good(e, env, ans, 0))
  }

  ghost predicate Interpreting(ctx: Context, e: Event, env: Environment, ans: Answers, snapshot: Case) {
    Evidenced(ctx, e, env, ans, snapshot) && InRoute(e, env, ans, "compliance") && ReadScreen(ans.service).Answered?
    && ReadScreen(ans.service).candidates != [] && ctx.screening == Screening(e, env, ans) && ctx.compliance.None?
  }

  ghost predicate Passed(ctx: Context, e: Event, env: Environment, ans: Answers, snapshot: Case) {
    Judged(e, env, ans) && Gathered(ctx, e, env, ans, snapshot) && !GateRaises(env, ctx)
    && ctx.policy == Some(Verdict(env, ctx))
  }

  ghost predicate StepsTo(n: Node, ctx: Context, e: Event, env: Environment, ans: Answers, snapshot: Case)
    requires !Terminal(n)
  {
    var (r, ctx') := Visit(n, e, env, ans, ctx);
    Edge(n, r).Some? ==> At(Edge(n, r).value, ctx', e, env, ans, snapshot)
  }

  lemma LoadSteps(ctx: Context, e: Event, env: Environment, ans: Answers, snapshot: Case)
    requires At(LoadCaseState, ctx, e, env, ans, snapshot)
    ensures StepsTo(LoadCaseState, ctx, e, env, ans, snapshot)
  {
    hide RouteOf, G.Validate, I.Tainted, ReadScreen, ScreenJson;
  }

  lemma RouteSteps(ctx: Context, e: Event, env: Environment, ans: Answers, snapshot: Case)
    requires At(ApplyRoute, ctx, e, env, ans, snapshot)
    ensures StepsTo(ApplyRoute, ctx, e, env, ans, snapshot)
  {
    hide RouteOf, G.Validate, I.Tainted, ReadScreen, ScreenJson, DocumentTainted, Derivative;
  }

  lemma EvidenceSteps(ctx: Context, e: Event, env: Environment, ans: Answers, snapshot: Case)
    requires At(ValidateEvidence, ctx, e, env, ans, snapshot)
    ensures StepsTo(ValidateEvidence, ctx, e, env, ans, snapshot)
  {
    hide RouteOf, G.Validate, I.Tainted, ReadScreen, ScreenJson, DocumentTainted, Derivative;
  }

  lemma ScreenSteps(ctx: Context, e: Event, env: Environment, ans: Answers, snapshot: Case)
    requires At(ScreenSupplier, ctx, e, env, ans, snapshot)
    ensures StepsTo(ScreenSupplier, ctx, e, env, ans, snapshot)
  {
    hide RouteOf, G.Validate, I.Tainted, ReadScreen, ScreenJson, DocumentTainted, Derivative, Evidence, Judged;
  }

  lemma ComplianceSteps(ctx: Context, e: Event, env: Environment, ans: Answers, snapshot: Case)
    requires At(ApplyCompliance, ctx, e, env, ans, snapshot)
    ensures StepsTo(ApplyCompliance, ctx, e, env, ans, snapshot)
  {
    hide RouteOf, I.Tainted, ReadScreen, DocumentTainted, Derivative, Evidence, Judged, Speaks;
    OpinionsAgree(ReadScreen(ans.service), ctx, ans.reading);
  }

  lemma OpinionsAgree(s: Screen, ctx: Context, reading: Reading)
    requires s.Answered? && ctx.screening == Some(ScreenJson(s))
    ensures var (r, ctx') := CheckCompliance(ctx, reading);
            r == Plain ==>
              ctx' == ctx.(compliance := Some(Compliance(Speaks(s, reading),
                                                         if reading.Parsed? then reading.recommendation else "")))
  {
    var known := Known(ctx);
    assert |known| == |s.candidates| && forall i :: 0 <= i < |known| ==> known[i] == J.Object(s.candidates[i]);
    forall id: string
      ensures (exists c :: c in known && c.Object? && c.Get("id") == J.Str(id)) <==>
                exists i :: 0 <= i < |s.candidates| && J.Object(s.candidates[i]).Get("id") == J.Str(id)
    {
      if c :| c in known && c.Object? && c.Get("id") == J.Str(id) {
        var i :| 0 <= i < |known| && known[i] == c;
        assert J.Object(s.candidates[i]).Get("id") == J.Str(id);
      }
      if i :| 0 <= i < |s.candidates| && J.Object(s.candidates[i]).Get("id") == J.Str(id) {
        assert known[i] in known;
      }
    }
  }

  lemma GateSteps(ctx: Context, e: Event, env: Environment, ans: Answers, snapshot: Case)
    requires At(AssessRisk, ctx, e, env, ans, snapshot)
    ensures StepsTo(AssessRisk, ctx, e, env, ans, snapshot)
  {
    hide RouteOf, I.Tainted, ReadScreen, ScreenJson, DocumentTainted, Derivative, Evidence, Judged, Screening, Opinion,
         R.AssessCase;
  }

  lemma RunSteps(n: Node, ctx: Context, e: Event, env: Environment, ans: Answers, snapshot: Case)
    requires !Terminal(n) && At(n, ctx, e, env, ans, snapshot)
    ensures StepsTo(n, ctx, e, env, ans, snapshot)
  {
    match n
    case LoadCaseState => hide At, StepsTo; LoadSteps(ctx, e, env, ans, snapshot);
    case ApplyRoute => hide At, StepsTo; RouteSteps(ctx, e, env, ans, snapshot);
    case ValidateEvidence => hide At, StepsTo; EvidenceSteps(ctx, e, env, ans, snapshot);
    case ScreenSupplier => hide At, StepsTo; ScreenSteps(ctx, e, env, ans, snapshot);
    case ApplyCompliance => hide At, StepsTo; ComplianceSteps(ctx, e, env, ans, snapshot);
    case AssessRisk => hide At, StepsTo; GateSteps(ctx, e, env, ans, snapshot);
    case _ => hide Empty, Evidenced, OnRoute, InRoute, AsksEvidence;
  }

  lemma {:induction false} RunKeepsTo(n: Node, ctx: Context, e: Event, env: Environment, ans: Answers, snapshot: Case)
    requires At(n, ctx, e, env, ans, snapshot)
    ensures var run := RunFrom(n, e, env, ans, ctx); At(End(run), run.ctx, e, env, ans, snapshot)
    decreases Rank(n, ctx.attempts)
  {
    hide Visit, At;
    if !Terminal(n) {
      EveryRouteHasAnEdge(n, e, env, ans, ctx);
      RunSteps(n, ctx, e, env, ans, snapshot);
      var (r, ctx') := Visit(n, e, env, ans, ctx);
      if Edge(n, r).Some? {
        RunKeepsTo(Edge(n, r).value, ctx', e, env, ans, snapshot);
      }
    }
  }

  /** Every run that finishes has gathered exactly what the event, its route and the answers call for - evidence if and
      only if asked for, from the first extraction that is grounded; a screening if and only if compliance is in the
      route; an opinion if and only if there were candidates - and was judged on it, or, if its route was refused or no
      extraction was grounded, quarantined without being judged at all. */
  lemma RunsGatherExactly(e: Event, env: Environment, ans: Answers, snapshot: Case)
    requires RunGraph(e, env, ans, snapshot).fate.Finished?
    ensures var run := RunGraph(e, env, ans, snapshot);
            (run.ctx.policy.Some? <==> Judged(e, env, ans))
            && (Judged(e, env, ans) ==>
                  Gathered(run.ctx, e, env, ans, snapshot) && !GateRaises(env, run.ctx)
                  && run.ctx.policy == Some(Verdict(env, run.ctx)))
            && (!Judged(e, env, ans) ==>
                  End(run).QuarantineCase? && run.ctx.evidence.None? && run.ctx.screening.None?)
  {
    hide Visit, RunFrom, Judged, Gathered, Verdict, GateRaises;
    RunKeepsTo(LoadCaseState, Blank(snapshot), e, env, ans, snapshot);
    S.TerminalsCarryTheirVerdict(e, env, ans, snapshot);
  }

  /* ---- whom a run asks ---- */

  /** How often the agents are still to be asked, from a node on. */
  function Coming(n: Node, agent: Node, ctx: Context, e: Event, env: Environment, ans: Answers): nat {
    var evidence :=
      if !AsksEvidence(e, env, ans) then 0 else if Derivative(e, env).None? || Good(e, env, ans, 0) then 1 else 2;
    match agent
    case Coordinator => if !ByClock(e) && (n.LoadCaseState? || n.Coordinator?) then 1 else 0
    case EvidenceAgent =>
      if n.LoadCaseState? || n.Coordinator? || n.ApplyRoute? || (n.EvidenceAgent? && ctx.attempts == 0) then evidence
      else if n.ValidateEvidence? && ctx.attempts == 0 then evidence - (if evidence > 0 then 1 else 0)
      else if n.EvidenceAgent? then 1
      else 0
    case _ => 0
  }

  lemma AskedOnce(n: Node, agent: Node, ctx: Context, e: Event, env: Environment, ans: Answers, snapshot: Case)
    requires !Terminal(n) && At(n, ctx, e, env, ans, snapshot) && (agent.Coordinator? || agent.EvidenceAgent?)
    ensures var (r, ctx') := Visit(n, e, env, ans, ctx);
            Edge(n, r).Some? ==>
              Coming(n, agent, ctx, e, env, ans) ==
                (if n == agent then 1 else 0) + Coming(Edge(n, r).value, agent, ctx', e, env, ans)
  {
    hide RouteOf, G.Validate, I.Tainted, ReadScreen, ScreenJson, DocumentTainted, Derivative, Verdict, GateRaises,
         CheckCompliance, Screening, Opinion, Judged;
  }

  lemma {:induction false} AskedExactlyFrom(n: Node, agent: Node, ctx: Context, e: Event, env: Environment,
                                            ans: Answers, snapshot: Case)
    requires At(n, ctx, e, env, ans, snapshot) && (agent.Coordinator? || agent.EvidenceAgent?)
    requires RunFrom(n, e, env, ans, ctx).fate.Finished?
    ensures S.Visits(RunFrom(n, e, env, ans, ctx).trace, agent) == Coming(n, agent, ctx, e, env, ans)
    decreases Rank(n, ctx.attempts)
  {
    hide Visit, At, Coming;
    assert [n][1..] == [];
    if Terminal(n) {
      NothingComing(n, agent, ctx, e, env, ans);
    } else {
      EveryRouteHasAnEdge(n, e, env, ans, ctx);
      RunSteps(n, ctx, e, env, ans, snapshot);
      AskedOnce(n, agent, ctx, e, env, ans, snapshot);
      var (r, ctx') := Visit(n, e, env, ans, ctx);
      AskedExactlyFrom(Edge(n, r).value, agent, ctx', e, env, ans, snapshot);
      var rest := RunFrom(Edge(n, r).value, e, env, ans, ctx').trace;
      assert ([n] + rest)[1..] == rest;
    }
  }

  lemma NothingComing(n: Node, agent: Node, ctx: Context, e: Event, env: Environment, ans: Answers)
    requires Terminal(n)
    ensures Coming(n, agent, ctx, e, env, ans) == 0
  {
  }

  /** The coordinator is asked once about every event that is not the clock's; an extraction is asked for if and only if
      the route has one, a document is named and it is untainted - again if and only if the first was not grounded in a
      document that could be loaded. */
  lemma AskedExactly(e: Event, env: Environment, ans: Answers, snapshot: Case)
    requires RunGraph(e, env, ans, snapshot).fate.Finished?
    ensures var trace := RunGraph(e, env, ans, snapshot).trace;
            S.Visits(trace, Coordinator) == (if ByClock(e) then 0 else 1)
            && S.Visits(trace, EvidenceAgent) ==
                 if !AsksEvidence(e, env, ans) then 0
                 else if Derivative(e, env).None? || Good(e, env, ans, 0) then 1 else 2
  {
    hide Visit, RunFrom;
    AskedExactlyFrom(LoadCaseState, Coordinator, Blank(snapshot), e, env, ans, snapshot);
    AskedExactlyFrom(LoadCaseState, EvidenceAgent, Blank(snapshot), e, env, ans, snapshot);
  }
}
