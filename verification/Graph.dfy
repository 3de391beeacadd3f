/** One run of the mission graph: its edge table, its deterministic nodes, and agents as arbitrary answers
    (app/agent.py, app/nodes.py). */
module Graph {

  import opened Basics
  import opened Store
  import D = Dates
  import F = Fleet
  import G = Grounding
  import I = Injection
  import J = Json
  import R = Risk

  /* ---- what a run is given ---- */

  /** An inbound event. An empty department is an absent one; `hasRef` says it names a document. */
  datatype Event = Event(eventType: string, supplier: string, department: string, on: Option<D.CalendarDate>,
    hasRef: bool)

  /** What is fixed for a run: loaded artifacts, pattern tables, what the document reference resolves to, and
      whether the workflow library reports a route without an edge as an error. */
  datatype Environment = Environment(
    catalog: Option<F.Catalog>, policy: Option<R.Policy>,
    directives: seq<I.Pattern>, signals: seq<I.Pattern>, digit: char -> bool,
    document: Option<G.Derivative>, strandedFails: bool)

  /** What comes of asking the screening service: no usable answer, a list of results, or a body of a shape that
      cannot be indexed at all. An empty dict or text in place of the list reads as an empty one. */
  datatype Service = Silent(error: string) | Results(results: seq<J.Json>) | Garbled

  /** The recorded screening; `Broken` is an exception escaping the node. */
  datatype Screen =
    | Answered(candidates: seq<map<string, J.Json>>, flagged: seq<string>)
    | NoAnswer(error: string)
    | Broken

  /** The compliance agent's answer after schema parsing. */
  datatype Reading = Unparseable | Parsed(candidateIds: seq<string>, recommendation: string)

  /** Whatever the models and the screening service answer in this run. */
  datatype Answers = Answers(proposal: seq<string>, extraction: nat -> J.Json, service: Service, reading: Reading)

  datatype Compliance = Compliance(valid: bool, recommendation: string)

  /** Session state, as far as nodes read it. */
  datatype Context = Context(
    snapshot: Case, derivative: Option<G.Derivative>, tainted: bool, route: seq<string>,
    evidence: Option<J.Json>, attempts: nat, screening: Option<J.Json>, compliance: Option<Compliance>,
    policy: Option<R.Verdict>)

  /* ---- the edge table ---- */

  datatype Node =
    | LoadCaseState | Coordinator | ApplyRoute | EvidenceAgent | ValidateEvidence | ScreenSupplier
    | ComplianceAgent | ApplyCompliance | AssessRisk | CommitCommands | ParkCase | QuarantineCase

  /** What a node answers; `Escaped` is an exception that leaves it. */
  datatype Route =
    | Plain | Agentic | Clock | ToEvidence | ToScreen | ToSkip | ToBlocked | Retry | NotGrounded
    | Interpret | ScoreOnly | Banded(band: Band) | Escaped

  function Edge(n: Node, r: Route): Option<Node> {
    match (n, r)
    case (LoadCaseState, Agentic) => Some(Coordinator)
    case (LoadCaseState, Clock) => Some(AssessRisk)
    case (Coordinator, Plain) => Some(ApplyRoute)
    case (ApplyRoute, ToEvidence) => Some(EvidenceAgent)
    case (ApplyRoute, ToScreen) => Some(ScreenSupplier)
    case (ApplyRoute, ToSkip) => Some(AssessRisk)
    case (ApplyRoute, ToBlocked) => Some(QuarantineCase)
    case (EvidenceAgent, Plain) => Some(ValidateEvidence)
    case (ValidateEvidence, Retry) => Some(EvidenceAgent)
    case (ValidateEvidence, ToScreen) => Some(ScreenSupplier)
    case (ValidateEvidence, ToSkip) => Some(AssessRisk)
    case (ValidateEvidence, NotGrounded) => Some(QuarantineCase)
    case (ScreenSupplier, Interpret) => Some(ComplianceAgent)
    case (ScreenSupplier, ScoreOnly) => Some(AssessRisk)
    case (ComplianceAgent, Plain) => Some(ApplyCompliance)
    case (ApplyCompliance, Plain) => Some(AssessRisk)
    case (AssessRisk, Banded(Clear)) => Some(CommitCommands)
    case (AssessRisk, Banded(Review)) => Some(ParkCase)
    case (AssessRisk, Banded(Blocked)) => Some(QuarantineCase)
    case _ => None
  }

  predicate Terminal(n: Node) { n.CommitCommands? || n.ParkCase? || n.QuarantineCase? }

  predicate IsAgent(n: Node) { n.Coordinator? || n.EvidenceAgent? || n.ComplianceAgent? }

  /* ---- the nodes ---- */

  const MAX_EVIDENCE_ATTEMPTS := 2

  const ALLOWED_RECOMMENDATIONS := ["corroborate_block", "escalate_review", "note_clear"]

  function Derivative(e: Event, env: Environment): Option<G.Derivative> {
    if e.hasRef then env.document else None
  }

  predicate DocumentTainted(e: Event, env: Environment) {
    Derivative(e, env).Some? && I.Tainted(env.directives, env.signals, env.digit, Derivative(e, env).value.pages)
  }

  /** One result as the node copies it. */
  datatype Copy = Candidate(fields: map<string, J.Json>) | KeyMissing | WrongType

  const COPIED_KEYS := ["id", "caption", "score", "match"]

  function CopyResult(r: J.Json): Copy {
    if !r.Object? then WrongType
    else if exists k :: k in COPIED_KEYS && k !in r.fields then KeyMissing
    else if "properties" in r.fields && !r.fields["properties"].Object? then WrongType
    else
      var topics := if "topics" in r.Get("properties").Fields() then r.Get("properties").Get("topics") else J.List([]);
      Candidate(map["id" := r.Get("id"), "caption" := r.Get("caption"), "score" := r.Get("score"),
                    "match" := r.Get("match"), "topics" := topics])
  }

  /** Copies results until the first one that cannot be copied, which decides. */
  function ReadResults(results: seq<J.Json>): Screen {
    if results == [] then Answered([], [])
    else
      match CopyResult(results[0])
      case KeyMissing => NoAnswer("KeyError")
      case WrongType => Broken
      case Candidate(fields) =>
        var rest := ReadResults(results[1..]);
        if !rest.Answered? then rest else Answered([fields] + rest.candidates, [])
  }

  /** The ids of the candidates the service calls a match. */
  function Matches(candidates: seq<map<string, J.Json>>): seq<J.Json> {
    if candidates == [] then []
    else
      var c := J.Object(candidates[0]);
      (if c.Get("match").Truthy() then [c.Get("id")] else []) + Matches(candidates[1..])
  }

  /** A match whose id is no text fails the schema of the record, and reads as no answer. */
  function ReadScreen(service: Service): Screen {
    match service
    case Silent(error) => NoAnswer(error)
    case Garbled => Broken
    case Results(results) =>
      var read := ReadResults(results);
      if !read.Answered? then read
      else
        var ids := Matches(read.candidates);
        if exists id :: id in ids && !id.Str? then NoAnswer("ValidationError")
        else read.(flagged := seq(|ids|, i requires 0 <= i < |ids| => if ids[i].Str? then ids[i].s else ""))
  }

  function ScreenJson(s: Screen): J.Json
    requires !s.Broken?
  {
    match s
    case Answered(candidates, flagged) =>
      J.Object(map["reachable" := J.Bool(true), "error" := J.Null,
                   "candidates" := J.List(seq(|candidates|,
                     i requires 0 <= i < |candidates| => J.Object(candidates[i]))),
                   "flagged" := J.List(seq(|flagged|, i requires 0 <= i < |flagged| => J.Str(flagged[i])))])
    case NoAnswer(error) =>
      J.Object(map["reachable" := J.Bool(false), "error" := J.Str(error), "candidates" := J.List([]),
        "flagged" := J.List([])])
  }

  function LoadCase(e: Event, env: Environment, snapshot: Case): (Route, Context) {
    (if e.eventType in F.CLOCK_EVENTS then Clock else Agentic,
     Context(snapshot, Derivative(e, env), DocumentTainted(e, env), [], None, 0, None, None, None))
  }

  /** The route policy answers to a proposal; a refused one is None. */
  function RouteOf(e: Event, env: Environment, proposal: seq<string>): Option<seq<string>> {
    var department := F.ResolveDepartment(env.catalog, e.department);
    if department.None? then None
    else
      var routing := F.ValidateRoute(env.catalog, e.eventType, proposal, department.value);
      if routing.Refused? then None else Some(routing.route)
  }

  function Branch(e: Event, env: Environment, ctx: Context, proposal: seq<string>): (Route, Context) {
    var route := RouteOf(e, env, proposal);
    if route.None? then (ToBlocked, ctx)
    else
      var ctx' := ctx.(route := route.value);
      if "evidence" in route.value && e.hasRef && !ctx.tainted then (ToEvidence, ctx')
      else if "compliance" in route.value then (ToScreen, ctx')
      else (ToSkip, ctx')
  }

  function CheckEvidence(env: Environment, ctx: Context, raw: J.Json): (Route, Context) {
    var attempts := ctx.attempts + 1;
    var ctx' := ctx.(attempts := attempts);
    if ctx.derivative.None? then (NotGrounded, ctx')
    else if G.Validate(raw, ctx.derivative.value, env.digit).Raised? then (Escaped, ctx)
    else if !G.Validate(raw, ctx.derivative.value, env.digit).Grounded? then
      (if attempts < MAX_EVIDENCE_ATTEMPTS then Retry else NotGrounded, ctx')
    else (if "compliance" in ctx.route then ToScreen else ToSkip, ctx'.(evidence := Some(raw)))
  }

  function DoScreen(ctx: Context, s: Screen): (Route, Context) {
    if s.Broken? then (Escaped, ctx)
    else (if s.Answered? && s.candidates != [] then Interpret else ScoreOnly, ctx.(screening := Some(ScreenJson(s))))
  }

  function Known(ctx: Context): seq<J.Json> {
    if ctx.screening.Some? then R.Items(ctx.screening.value, "candidates") else []
  }

  /** The agent may only speak about candidates that were screened, in the allowed vocabulary. The ids go into a
      set, which raises on one that cannot be hashed. */
  function CheckCompliance(ctx: Context, reading: Reading): (Route, Context) {
    var known := Known(ctx);
    if exists c :: c in known && c.Object? && !c.Get("id").Hashable() then (Escaped, ctx)
    else
      var valid := reading.Parsed? && reading.recommendation in ALLOWED_RECOMMENDATIONS
                   && forall id :: id in reading.candidateIds ==>
                       exists c :: c in known && c.Object? && c.Get("id") == J.Str(id);
      (Plain, ctx.(compliance := Some(Compliance(valid, if reading.Parsed? then reading.recommendation else ""))))
  }

  /** The verdict an event without a screening of its own inherits. */
  function Carried(policy: PolicyBlock): R.Verdict {
    match policy
    case Stored(v) => v
    case NoPolicy => R.Blocking("carry_forward", 0, "NO_STORED_VERDICT")
    case Unreadable(None) => R.Blocking("carry_forward", 0, "NO_STORED_VERDICT")
    case Unreadable(Some(_)) => R.Blocking("carry_forward", 0, "STORED_VERDICT_MALFORMED")
  }

  function Tightened(v: R.Verdict, band: Band, reason: string): R.Verdict {
    v.(band := band, reasons := v.reasons + [reason])
  }

  function Taint(v: R.Verdict, tainted: bool): R.Verdict {
    if tainted && v.band != Blocked then Tightened(v, Blocked, "DOCUMENT_INJECTION") else v
  }

  function Escalate(v: R.Verdict, c: Option<Compliance>): R.Verdict {
    if v.band != Clear || c.None? then v
    else if !c.value.valid then Tightened(v, Review, "COMPLIANCE_ASSESSMENT_INVALID")
    else if c.value.recommendation == "escalate_review" then Tightened(v, Review, "COMPLIANCE_ESCALATION")
    else if c.value.recommendation == "corroborate_block" then Tightened(v, Review, "COMPLIANCE_BLOCK_CORROBORATION")
    else v
  }

  function CaseFlags(tainted: bool): map<string, J.Json> {
    map["document_tainted" := J.Bool(tainted)]
  }

  /** Scoring a screening may raise; carrying a verdict never does. */
  predicate GateRaises(env: Environment, ctx: Context) {
    ctx.screening.Some? && R.AssessCase(env.policy, ctx.screening, CaseFlags(ctx.tainted)).Raised?
  }

  function Verdict(env: Environment, ctx: Context): R.Verdict
    requires !GateRaises(env, ctx)
  {
    if ctx.screening.None? then Taint(Carried(ctx.snapshot.policy), ctx.tainted)
    else Escalate(Taint(R.AssessCase(env.policy, ctx.screening, CaseFlags(ctx.tainted)).verdict, ctx.tainted),
      ctx.compliance)
  }

  function Gate(env: Environment, ctx: Context): (Route, Context) {
    if GateRaises(env, ctx) then (Escaped, ctx)
    else
      var v := Verdict(env, ctx);
      (Banded(v.band), ctx.(policy := Some(v)))
  }

  /** What a node does: the route it answers and the state it leaves. */
  function Visit(n: Node, e: Event, env: Environment, ans: Answers, ctx: Context): (Route, Context)
    requires !Terminal(n)
  {
    match n
    case LoadCaseState => LoadCase(e, env, ctx.snapshot)
    case ApplyRoute => Branch(e, env, ctx, ans.proposal)
    case ValidateEvidence => CheckEvidence(env, ctx, ans.extraction(ctx.attempts))
    case ScreenSupplier => DoScreen(ctx, ReadScreen(ans.service))
    case ApplyCompliance => CheckCompliance(ctx, ans.reading)
    case AssessRisk => Gate(env, ctx)
    case _ => (Plain, ctx)
  }

  /* ---- runs ---- */

  function Rank(n: Node, attempts: nat): nat {
    match n
    case LoadCaseState => 20
    case Coordinator => 19
    case ApplyRoute => 18
    case EvidenceAgent => 11 + if attempts < 2 then 2 * (2 - attempts) else 0
    case ValidateEvidence => 10 + if attempts < 2 then 2 * (2 - attempts) else 0
    case ScreenSupplier => 9
    case ComplianceAgent => 8
    case ApplyCompliance => 7
    case AssessRisk => 6
    case _ => 0
  }

  /** Whether an exception leaves the node: a screening service that answers in no usable shape, an extraction
      with a huge confidence, a candidate id that cannot be hashed, or a score the gate cannot write out. */
  predicate NodeRaises(n: Node, e: Event, env: Environment, ans: Answers, ctx: Context) {
    match n
    case ScreenSupplier => ReadScreen(ans.service).Broken?
    case ValidateEvidence => ctx.derivative.Some?
      && G.Validate(ans.extraction(ctx.attempts), ctx.derivative.value, env.digit).Raised?
    case ApplyCompliance => exists c :: c in Known(ctx) && c.Object? && (c.Get("id").List? || c.Get("id").Object?)
    case AssessRisk => GateRaises(env, ctx)
    case _ => false
  }

  /** A node's answer lacks an edge exactly when the node raises or the gate carries a stored verdict whose band is
      outside its vocabulary, untainted. Every other answer has one, and it leads towards a terminal: the only
      back-edge is the retry, and it costs an attempt. */
  lemma EveryRouteHasAnEdge(n: Node, e: Event, env: Environment, ans: Answers, ctx: Context)
    requires !Terminal(n)
    ensures var (r, ctx') := Visit(n, e, env, ans, ctx);
            (r.Escaped? <==> NodeRaises(n, e, env, ans, ctx))
            && (Edge(n, r).None? <==>
                  NodeRaises(n, e, env, ans, ctx)
                  || (n.AssessRisk? && ctx.screening.None? && !ctx.tainted
                      && ctx.snapshot.policy.Stored? && ctx.snapshot.policy.verdict.band.Foreign?))
            && (Edge(n, r).Some? ==> Rank(Edge(n, r).value, ctx'.attempts) < Rank(n, ctx.attempts))
  {
    hide RouteOf, G.Validate, I.Tainted, ScreenJson, ReadScreen, Verdict, GateRaises, CheckCompliance;
    if n.AssessRisk? && !GateRaises(env, ctx) { GateStrays(env, ctx); }
    if n.ApplyCompliance? { ComplianceEscapes(ctx, ans.reading); }
  }

  lemma ComplianceEscapes(ctx: Context, reading: Reading)
    ensures var (r, ctx') := CheckCompliance(ctx, reading);
            (r == Plain || r == Escaped) && ctx'.attempts == ctx.attempts
            && (r.Escaped? <==> exists c :: c in Known(ctx) && c.Object? && (c.Get("id").List? || c.Get("id").Object?))
  {
  }

  /** The gate's band is one of its vocabulary, unless it is carried. */
  lemma GateStrays(env: Environment, ctx: Context)
    requires !GateRaises(env, ctx)
    ensures Verdict(env, ctx).band.Foreign? <==>
              ctx.screening.None? && !ctx.tainted && ctx.snapshot.policy.Stored?
                && ctx.snapshot.policy.verdict.band.Foreign?
  {
    hide R.Malformed, R.FiredFactors, R.Round6;
  }

  /** How a run ends: at a terminal, by an exception, or at a route that has no edge. */
  datatype Fate = Finished | Raised | Stranded

  /** The nodes visited, the state before the last of them, and how the run ended. */
  datatype Run = Run(trace: seq<Node>, ctx: Context, fate: Fate)

  function RunFrom(n: Node, e: Event, env: Environment, ans: Answers, ctx: Context): (run: Run)
    ensures |run.trace| > 0 && run.trace[0] == n
    ensures run.fate.Finished? <==> Terminal(run.trace[|run.trace| - 1])
    decreases Rank(n, ctx.attempts)
  {
    if Terminal(n) then Run([n], ctx, Finished)
    else
      EveryRouteHasAnEdge(n, e, env, ans, ctx);
      var (r, ctx') := Visit(n, e, env, ans, ctx);
      if r.Escaped? then Run([n], ctx, Raised)
      else if Edge(n, r).None? then Run([n], ctx, Stranded)
      else
        var rest := RunFrom(Edge(n, r).value, e, env, ans, ctx');
        Run([n] + rest.trace, rest.ctx, rest.fate)
  }

  function Blank(snapshot: Case): Context {
    Context(snapshot, None, false, [], None, 0, None, None, None)
  }

  /** The run of one event against the case document as it is loaded. */
  function RunGraph(e: Event, env: Environment, ans: Answers, snapshot: Case): Run {
    RunFrom(LoadCaseState, e, env, ans, Blank(snapshot))
  }

  /** The last node a run visits. */
  function End(run: Run): Node
    requires |run.trace| > 0
  {
    run.trace[|run.trace| - 1]
  }
}
