/** What every graph run guarantees, whatever the models and the screening service answer. */
module GraphSafety {

  import opened Basics
  import opened Store
  import opened Graph
  import D = Dates
  import F = Fleet
  import G = Grounding
  import I = Injection
  import J = Json
  import L = Lifecycle
  import R = Risk

  /* ---- the verdict ---- */

  /** A screening recorded by the graph makes the gate raise exactly when its candidates are well formed and the
      policy asks about a score among them that is too large to write out. */
  lemma ScreensAreScored(env: Environment, s: Screen, flags: map<string, J.Json>)
    requires !s.Broken?
    ensures R.AssessCase(env.policy, Some(ScreenJson(s)), flags).Raised? <==>
              env.policy.Some? && s.Answered? && !R.Malformed(ScreenJson(s))
              && exists f :: f in env.policy.value.factors && R.Unwritable(f.when, ScreenJson(s))
  {
    hide R.Malformed, R.Conclude;
    if env.policy.Some? {
      R.GateRaisesExactly(env.policy.value, Some(ScreenJson(s)), flags);
      if s.NoAnswer? {
        forall f | f in env.policy.value.factors ensures !R.Unwritable(f.when, ScreenJson(s)) {
          SilenceIsWritable(f.when, s);
        }
      }
    }
  }

  lemma SilenceIsWritable(c: R.Condition, s: Screen)
    requires s.NoAnswer?
    ensures !R.Unwritable(c, ScreenJson(s))
  {
  }

  /** Scores of ordinary size never make it raise. */
  lemma OrdinaryScreensAreScored(env: Environment, s: Screen, flags: map<string, J.Json>)
    requires !s.Broken?
    requires s.Answered? ==> forall c :: c in s.candidates ==> J.FitsFloat(R.Score(J.Object(c)))
    ensures R.AssessCase(env.policy, Some(ScreenJson(s)), flags).Scored?
  {
    hide R.Malformed, R.Conclude, J.FitsFloat;
    ScreensAreScored(env, s, flags);
    if s.Answered? {
      var items := R.Items(ScreenJson(s), "candidates");
      assert |items| == |s.candidates| && forall i :: 0 <= i < |items| ==> items[i] == J.Object(s.candidates[i]);
      assert forall i :: 0 <= i < |items| ==> J.FitsFloat(R.Score(items[i])) by {
        forall i | 0 <= i < |items| ensures J.FitsFloat(R.Score(items[i])) { assert s.candidates[i] in s.candidates; }
      }
    }
  }

  lemma TaintBlocks(env: Environment, ctx: Context)
    requires ctx.tainted && !GateRaises(env, ctx)
    ensures Verdict(env, ctx).band == Blocked
  {
    hide R.AssessCase;
  }

  /** Without a screening the gate blocks exactly when the document is tainted, the stored verdict is missing or
      unreadable, or it blocks itself; a readable one with a band of its own invention is carried unblocked. */
  lemma AbsenceBlocks(env: Environment, ctx: Context)
    requires ctx.screening.None?
    ensures Verdict(env, ctx).band == Blocked <==>
              ctx.tainted || !ctx.snapshot.policy.Stored? || ctx.snapshot.policy.verdict.band == Blocked
  {
  }

  /** The interpreter can only move a fresh clear to review: it never reaches a carried verdict, and any
      other band comes out as the deterministic gate left it. */
  lemma ComplianceOnlyTightensClear(env: Environment, ctx: Context)
    requires !GateRaises(env, ctx)
    ensures var without := Verdict(env, ctx.(compliance := None));
            var with_ := Verdict(env, ctx);
            (without.band != Clear || ctx.screening.None? ==> with_ == without)
            && (without.band == Clear ==> with_.band == Clear || with_.band == Review)
            && with_.score == without.score
  {
    hide R.AssessCase;
  }

  /** What the gate makes of a screening and of a stored verdict. A fresh one keeps score and factors; it is blocked
      when scored so or tainted, and review when scored so, or when scored clear and the interpreter's record is
      invalid or asks for more than a note. A carried one stays as it is unless the document is tainted, and is
      blocked at full score when there is none to carry. */
  lemma VerdictsAtTheGate(env: Environment, ctx: Context)
    requires !GateRaises(env, ctx)
    ensures var v := Verdict(env, ctx);
            if ctx.screening.Some? then
              var scored := R.AssessCase(env.policy, ctx.screening, CaseFlags(ctx.tainted)).verdict;
              v.score == scored.score && v.fired == scored.fired && v.policyId == scored.policyId
              && v.policyVersion == scored.policyVersion
              && (v.band == Blocked <==> ctx.tainted || scored.band == Blocked)
              && (v.band == Review <==>
                    !ctx.tainted
                    && (scored.band == Review
                        || (scored.band == Clear && ctx.compliance.Some? && Objects(ctx.compliance.value))))
              && (v.band == Clear <==>
                    !ctx.tainted && scored.band == Clear && !(ctx.compliance.Some? && Objects(ctx.compliance.value)))
            else
              (ctx.tainted ==> v.band == Blocked)
              && (ctx.snapshot.policy.Stored? && !ctx.tainted ==> v == ctx.snapshot.policy.verdict)
              && (ctx.snapshot.policy.Stored? ==> v.score == ctx.snapshot.policy.verdict.score)
              && (!ctx.snapshot.policy.Stored? ==> v.band == Blocked && v.score == 1.0 && v.policyId == "carry_forward")
  {
    hide R.FiredFactors, R.Malformed, R.Round6;
  }

  /** The reasons a verdict gives beyond the scored or the stored ones: the injection when it was what blocked, and what
      the interpreter objected to when that was what held a clear score back. */
  lemma ReasonsAtTheGate(env: Environment, ctx: Context)
    requires !GateRaises(env, ctx)
    ensures var v := Verdict(env, ctx);
            if ctx.screening.Some? then
              var scored := R.AssessCase(env.policy, ctx.screening, CaseFlags(ctx.tainted)).verdict;
              v.reasons == scored.reasons
                + (if ctx.tainted && scored.band != Blocked then ["DOCUMENT_INJECTION"] else [])
                + if !ctx.tainted && scored.band == Clear && ctx.compliance.Some? && Objects(ctx.compliance.value)
                  then [if !ctx.compliance.value.valid then "COMPLIANCE_ASSESSMENT_INVALID"
                        else if ctx.compliance.value.recommendation == "escalate_review" then "COMPLIANCE_ESCALATION"
                        else "COMPLIANCE_BLOCK_CORROBORATION"]
                  else []
            else
              var carried := if ctx.snapshot.policy.Stored? then ctx.snapshot.policy.verdict.reasons
                             else if GateBand(ctx.snapshot).None? then ["NO_STORED_VERDICT"]
                             else ["STORED_VERDICT_MALFORMED"];
              v.reasons == carried
                + if ctx.tainted && ctx.snapshot.policy.Stored? && ctx.snapshot.policy.verdict.band != Blocked
                  then ["DOCUMENT_INJECTION"] else []
  {
    hide R.FiredFactors, R.Malformed, R.Round6;
  }

  /** The interpreter's record is invalid, or recommends more than a note. */
  predicate Objects(c: Compliance) {
    !c.valid || c.recommendation == "escalate_review" || c.recommendation == "corroborate_block"
  }

  /* ---- the screening record ---- */

  /** A result that can be recorded: a dict with the four keys and, if it has properties, a dict of them. */
  predicate Recordable(r: J.Json) {
    r.Object? && "id" in r.fields && "caption" in r.fields && "score" in r.fields && "match" in r.fields
    && ("properties" in r.fields ==> r.fields["properties"].Object?)
  }

  lemma CopiesExactly(r: J.Json)
    ensures CopyResult(r).Candidate? <==> Recordable(r)
    ensures Recordable(r) ==>
              var f := CopyResult(r).fields;
              f.Keys == {"id", "caption", "score", "match", "topics"}
              && f["id"] == r.fields["id"] && f["caption"] == r.fields["caption"] && f["score"] == r.fields["score"]
              && f["match"] == r.fields["match"]
              && f["topics"] == if "properties" in r.fields && "topics" in r.fields["properties"].fields
                                then r.fields["properties"].fields["topics"] else J.List([])
    ensures CopyResult(r).KeyMissing? ==> r.Object?
  {
    assert COPIED_KEYS[0] == "id" && COPIED_KEYS[1] == "caption";
    assert COPIED_KEYS[2] == "score" && COPIED_KEYS[3] == "match";
    assert "id" in COPIED_KEYS && "caption" in COPIED_KEYS && "score" in COPIED_KEYS && "match" in COPIED_KEYS;
  }

  lemma {:induction false} ReadsExactly(results: seq<J.Json>)
    ensures ReadResults(results).Answered? <==> forall i :: 0 <= i < |results| ==> Recordable(results[i])
    ensures ReadResults(results).Answered? ==>
              var cs := ReadResults(results).candidates;
              |cs| == |results| && ReadResults(results).flagged == []
              && forall i :: 0 <= i < |results| ==> CopyResult(results[i]) == Candidate(cs[i])
    ensures ReadResults(results).Broken? <==>
              exists i :: 0 <= i < |results| && CopyResult(results[i]).WrongType?
                          && forall j :: 0 <= j < i ==> Recordable(results[j])
  {
    hide CopyResult, Recordable;
    if results != [] {
      var rest := results[1..];
      assert forall i :: 0 < i < |results| ==> results[i] == rest[i - 1];
      ReadsExactly(rest);
      CopiesExactly(results[0]);
      if ReadResults(results).Answered? {
        var cs := ReadResults(results).candidates;
        forall i | 0 <= i < |results| ensures Recordable(results[i]) && CopyResult(results[i]) == Candidate(cs[i]) {
          if i > 0 { assert results[i] == rest[i - 1] && cs[i] == ReadResults(rest).candidates[i - 1]; }
        }
      }
      if forall i :: 0 <= i < |results| ==> Recordable(results[i]) {
        forall i | 0 <= i < |rest| ensures Recordable(rest[i]) { assert results[i + 1] == rest[i]; }
      }
      if ReadResults(rest).Broken? && Recordable(results[0]) {
        var i :| 0 <= i < |rest| && CopyResult(rest[i]).WrongType? && forall j :: 0 <= j < i ==> Recordable(rest[j]);
        assert CopyResult(results[i + 1]).WrongType?;
        assert forall j :: 0 < j < i + 1 ==> results[j] == rest[j - 1];
      }
      if i :| 0 <= i < |results| && CopyResult(results[i]).WrongType?
              && forall j :: 0 <= j < i ==> Recordable(results[j]) {
        if i > 0 {
          assert CopyResult(rest[i - 1]).WrongType?;
          assert forall j :: 0 <= j < i - 1 ==> rest[j] == results[j + 1];
        }
      }
    }
  }

  lemma {:induction false} MatchesExactly(cs: seq<map<string, J.Json>>)
    ensures forall id :: id in Matches(cs) <==>
              exists i :: 0 <= i < |cs| && J.Object(cs[i]).Get("match").Truthy() && J.Object(cs[i]).Get("id") == id
  {
    if cs != [] {
      var rest := cs[1..];
      MatchesExactly(rest);
      assert forall i :: 0 < i < |cs| ==> cs[i] == rest[i - 1];
      forall id ensures id in Matches(cs) <==>
                  exists i :: 0 <= i < |cs| && J.Object(cs[i]).Get("match").Truthy() && J.Object(cs[i]).Get("id") == id
      {
        if i :| 0 <= i < |cs| && J.Object(cs[i]).Get("match").Truthy() && J.Object(cs[i]).Get("id") == id {
          if i > 0 { assert J.Object(rest[i - 1]).Get("match").Truthy() && J.Object(rest[i - 1]).Get("id") == id; }
        }
        if i :| 0 <= i < |rest| && J.Object(rest[i]).Get("match").Truthy() && J.Object(rest[i]).Get("id") == id {
          assert J.Object(cs[i + 1]).Get("match").Truthy() && J.Object(cs[i + 1]).Get("id") == id;
        }
      }
    }
  }

  /** A service's answer is recorded as one exactly when it is a list of recordable results whose matches have texts for
      ids: every result is a candidate, in order, and flagged are the ids of the matches. A result that is no dict, or
      whose properties are none, breaks the node if no earlier one lacks a key; everything else is no answer. */
  lemma AnswersAreRecorded(service: Service)
    ensures var s := ReadScreen(service);
            (s.Answered? <==>
               service.Results? && (forall i :: 0 <= i < |service.results| ==> Recordable(service.results[i]))
               && forall i :: 0 <= i < |service.results| && service.results[i].Get("match").Truthy() ==>
                    service.results[i].Get("id").Str?)
            && (s.Answered? ==>
                  |s.candidates| == |service.results|
                  && (forall i :: 0 <= i < |service.results| ==>
                        CopyResult(service.results[i]) == Candidate(s.candidates[i]))
                  && forall id :: id in s.flagged <==>
                       exists i :: 0 <= i < |service.results| && service.results[i].Get("match").Truthy()
                                   && service.results[i].Get("id") == J.Str(id))
            && (s.Broken? <==>
                  service.Garbled?
                  || (service.Results?
                      && exists i :: 0 <= i < |service.results| && CopyResult(service.results[i]).WrongType?
                                                      && forall j :: 0 <= j < i ==> Recordable(service.results[j])))
  {
    hide CopyResult, Recordable, ReadResults, Matches;
    if service.Results? {
      var rs := service.results;
      ReadsExactly(rs);
      if ReadResults(rs).Answered? {
        var cs := ReadResults(rs).candidates;
        MatchesExactly(cs);
        forall i | 0 <= i < |rs|
          ensures J.Object(cs[i]).Get("match") == rs[i].Get("match") && J.Object(cs[i]).Get("id") == rs[i].Get("id")
        {
          CandidatesKeepTheirKeys(rs[i]);
        }
        FlaggedExactly(rs, cs, ReadScreen(service));
      }
    }
  }

  /** And what an answer that is none is recorded with. */
  lemma SilencesAreRecorded(service: Service)
    requires ReadScreen(service).NoAnswer?
    ensures var error := ReadScreen(service).error;
            (service.Silent? ==> error == service.error)
            && (service.Results? ==>
                  error == if forall i :: 0 <= i < |service.results| ==> Recordable(service.results[i])
                           then "ValidationError" else "KeyError")
  {
    hide CopyResult, Recordable, Matches;
    if service.Results? {
      ReadsExactly(service.results);
      MissingKeysFail(service.results);
    }
  }

  lemma {:induction false} MissingKeysFail(results: seq<J.Json>)
    ensures ReadResults(results).NoAnswer? ==> ReadResults(results).error == "KeyError"
  {
    hide CopyResult;
    if results != [] { MissingKeysFail(results[1..]); }
  }

  /** The record of a screening reads back as the answer it was made from. */
  lemma RecordsReadBack(s: Screen)
    requires !s.Broken?
    ensures var j := ScreenJson(s);
            j.Get("reachable") == J.Bool(s.Answered?) && j.Get("candidates").List? && j.Get("flagged").List?
            && (s.NoAnswer? ==>
                  j.Get("candidates").items == [] && j.Get("flagged").items == [] && j.Get("error") == J.Str(s.error))
            && (s.Answered? ==>
                  |j.Get("candidates").items| == |s.candidates| && |j.Get("flagged").items| == |s.flagged|
                  && (forall i :: 0 <= i < |s.candidates| ==> j.Get("candidates").items[i] == J.Object(s.candidates[i]))
                  && forall i :: 0 <= i < |s.flagged| ==> j.Get("flagged").items[i] == J.Str(s.flagged[i]))
  {
  }

  /** What makes the conditions of a policy hold in a run that screens: that the service gave no usable answer, that one
      of its results is a match, that one of them has the score, and that the document is tainted. */
  lemma ConditionsReadTheService(when: R.Condition, service: Service, tainted: bool)
    requires !ReadScreen(service).Broken?
    ensures var answered := ReadScreen(service).Answered?;
            R.Holds(when, Some(ScreenJson(ReadScreen(service))), CaseFlags(tainted)) <==>
              match when
              case ScreeningUnreachable => !answered
              case ScreeningMatch =>
                answered && exists i :: 0 <= i < |service.results| && service.results[i].Get("match").Truthy()
              case CandidateAbove(floor) =>
                answered && exists i :: 0 <= i < |service.results| && R.Reaches(service.results[i].Get("score"), floor)
              case CaseFlag(flag) => tainted && flag == "document_tainted"
  {
    hide ReadScreen, ScreenJson, R.Reaches, CopyResult;
    var s := ReadScreen(service);
    var j := ScreenJson(s);
    AnswersAreRecorded(service);
    RecordsReadBack(s);
    if s.Answered? {
      forall i | 0 <= i < |service.results|
        ensures j.Get("candidates").items[i].Get("score") == service.results[i].Get("score")
      {
        CopiesExactly(service.results[i]);
      }
      if |s.flagged| > 0 {
        assert s.flagged[0] in s.flagged;
      }
      if i :| 0 <= i < |service.results| && service.results[i].Get("match").Truthy() {
        assert service.results[i].Get("id").Str? && service.results[i].Get("id").s in s.flagged;
      }
    }
  }

  lemma CandidatesKeepTheirKeys(r: J.Json)
    requires CopyResult(r).Candidate?
    ensures J.Object(CopyResult(r).fields).Get("match") == r.Get("match")
            && J.Object(CopyResult(r).fields).Get("id") == r.Get("id")
  {
  }

  lemma FlaggedExactly(rs: seq<J.Json>, cs: seq<map<string, J.Json>>, s: Screen)
    requires |rs| == |cs|
    requires forall i :: 0 <= i < |rs| ==>
               J.Object(cs[i]).Get("match") == rs[i].Get("match") && J.Object(cs[i]).Get("id") == rs[i].Get("id")
    requires forall id :: id in Matches(cs) <==>
               exists i :: 0 <= i < |cs| && J.Object(cs[i]).Get("match").Truthy() && J.Object(cs[i]).Get("id") == id
    requires s == ReadScreen(Results(rs)) && ReadResults(rs) == Answered(cs, [])
    ensures s.Answered? <==> forall i :: 0 <= i < |rs| && rs[i].Get("match").Truthy() ==> rs[i].Get("id").Str?
    ensures s.Answered? ==>
              s.candidates == cs
              && forall id :: id in s.flagged <==>
                   exists i :: 0 <= i < |rs| && rs[i].Get("match").Truthy() && rs[i].Get("id") == J.Str(id)
  {
    hide ReadResults, Matches;
    var ids := Matches(cs);
    if forall i :: 0 <= i < |rs| && rs[i].Get("match").Truthy() ==> rs[i].Get("id").Str? {
      forall id | id in ids ensures id.Str? {
        var i :| 0 <= i < |cs| && J.Object(cs[i]).Get("match").Truthy() && J.Object(cs[i]).Get("id") == id;
        assert rs[i].Get("id") == id;
      }
    } else {
      var i :| 0 <= i < |rs| && rs[i].Get("match").Truthy() && !rs[i].Get("id").Str?;
      assert rs[i].Get("id") in ids by { assert J.Object(cs[i]).Get("match").Truthy(); }
    }
    if s.Answered? {
      forall id ensures id in s.flagged <==>
                  exists i :: 0 <= i < |rs| && rs[i].Get("match").Truthy() && rs[i].Get("id") == J.Str(id)
      {
        if id in s.flagged {
          var m :| 0 <= m < |s.flagged| && s.flagged[m] == id;
          assert ids[m] in ids && ids[m] == J.Str(id);
          var i :| 0 <= i < |cs| && J.Object(cs[i]).Get("match").Truthy() && J.Object(cs[i]).Get("id") == ids[m];
          assert rs[i].Get("match").Truthy();
        }
        if i :| 0 <= i < |rs| && rs[i].Get("match").Truthy() && rs[i].Get("id") == J.Str(id) {
          assert J.Object(cs[i]).Get("match").Truthy() && J.Str(id) in ids;
          var m :| 0 <= m < |ids| && ids[m] == J.Str(id);
          assert s.flagged[m] == id;
        }
      }
    }
  }

  /* ---- soundness of a run ---- */

  ghost predicate Sound(n: Node, e: Event, env: Environment, ans: Answers, ctx: Context) {
    && (n.LoadCaseState? ==> ctx == Blank(ctx.snapshot))
    && (!n.LoadCaseState? ==> ctx.derivative == Derivative(e, env) && ctx.tainted == DocumentTainted(e, env))
    && (n.EvidenceAgent? || n.ValidateEvidence? ==> !ctx.tainted)
    && (ctx.evidence.Some? ==> !ctx.tainted && ctx.derivative.Some?
                               && G.Validate(ctx.evidence.value, ctx.derivative.value, env.digit).Grounded?
                               && exists k: nat :: k < MAX_EVIDENCE_ATTEMPTS && ctx.evidence.value == ans.extraction(k))
    && (n.EvidenceAgent? || n.ValidateEvidence? ==> ctx.attempts < MAX_EVIDENCE_ATTEMPTS)
    && (n.Coordinator? || n.ApplyRoute? ==> ctx.attempts == 0)
    && (ctx.screening.Some? ==>
        !ReadScreen(ans.service).Broken? && ctx.screening.value == ScreenJson(ReadScreen(ans.service)))
    && (n.ComplianceAgent? || n.ApplyCompliance? ==> ctx.screening.Some?)
    && (n.ScreenSupplier? || n.ComplianceAgent? || n.ApplyCompliance? || ctx.screening.Some? ==>
        "compliance" in ctx.route)
    && (ctx.route != [] ==> RouteOf(e, env, ans.proposal) == Some(ctx.route))
    && (!Terminal(n) ==> ctx.policy.None?)
    && (n.CommitCommands? || n.ParkCase? ==> ctx.policy.Some?)
    && (ctx.policy.Some? ==>
          !GateRaises(env, ctx) && ctx.policy.value == Verdict(env, ctx)
          && Edge(AssessRisk, Banded(ctx.policy.value.band)) == Some(n))
    && (e.eventType in F.CLOCK_EVENTS && !n.LoadCaseState? ==>
          (n.AssessRisk? || Terminal(n)) && ctx.screening.None? && ctx.evidence.None?
            && (Terminal(n) ==> ctx.policy.Some?))
  }

  /** A step of the run keeps it sound, node by node. */
  ghost predicate KeepsSound(n: Node, e: Event, env: Environment, ans: Answers, ctx: Context)
    requires !Terminal(n)
  {
    var (r, ctx') := Visit(n, e, env, ans, ctx);
    ctx'.snapshot == ctx.snapshot && (Edge(n, r).Some? ==> Sound(Edge(n, r).value, e, env, ans, ctx'))
  }

  lemma StepKeepsSound(n: Node, e: Event, env: Environment, ans: Answers, ctx: Context)
    requires !Terminal(n) && Sound(n, e, env, ans, ctx)
    ensures KeepsSound(n, e, env, ans, ctx)
  {
    hide Sound, KeepsSound;
    match n
    case ValidateEvidence => EvidenceKeepsSound(e, env, ans, ctx);
    case AssessRisk => GateKeepsSound(e, env, ans, ctx);
    case ApplyCompliance => ComplianceKeepsSound(e, env, ans, ctx);
    case _ => OthersKeepSound(n, e, env, ans, ctx);
  }

  lemma EvidenceKeepsSound(e: Event, env: Environment, ans: Answers, ctx: Context)
    requires Sound(ValidateEvidence, e, env, ans, ctx)
    ensures KeepsSound(ValidateEvidence, e, env, ans, ctx)
  {
    hide RouteOf, G.Validate, I.Tainted, ScreenJson, ReadScreen, R.AssessCase, Verdict, GateRaises;
  }

  lemma GateKeepsSound(e: Event, env: Environment, ans: Answers, ctx: Context)
    requires Sound(AssessRisk, e, env, ans, ctx)
    ensures KeepsSound(AssessRisk, e, env, ans, ctx)
  {
    hide RouteOf, G.Validate, I.Tainted, ScreenJson, ReadScreen, R.AssessCase;
  }

  lemma ComplianceKeepsSound(e: Event, env: Environment, ans: Answers, ctx: Context)
    requires Sound(ApplyCompliance, e, env, ans, ctx)
    ensures KeepsSound(ApplyCompliance, e, env, ans, ctx)
  {
    hide RouteOf, G.Validate, I.Tainted, ScreenJson, ReadScreen, CheckCompliance, Verdict, GateRaises;
    ComplianceKeepsTheRest(ctx, ans.reading);
  }

  lemma OthersKeepSound(n: Node, e: Event, env: Environment, ans: Answers, ctx: Context)
    requires !Terminal(n) && Sound(n, e, env, ans, ctx) && !n.ValidateEvidence? && !n.AssessRisk? && !n.ApplyCompliance?
    ensures KeepsSound(n, e, env, ans, ctx)
  {
    hide RouteOf, G.Validate, I.Tainted, ScreenJson, ReadScreen, Verdict, GateRaises;
  }

  lemma ComplianceKeepsTheRest(ctx: Context, reading: Reading)
    ensures var (r, ctx') := CheckCompliance(ctx, reading);
            (r == Plain || r == Escaped) && ctx' == ctx.(compliance := ctx'.compliance)
  {
  }

  lemma {:induction false} RunIsSound(n: Node, e: Event, env: Environment, ans: Answers, ctx: Context)
    requires Sound(n, e, env, ans, ctx)
    ensures var run := RunFrom(n, e, env, ans, ctx);
            Sound(End(run), e, env, ans, run.ctx) && run.ctx.snapshot == ctx.snapshot
    decreases Rank(n, ctx.attempts)
  {
    hide Visit, Sound;
    if !Terminal(n) {
      EveryRouteHasAnEdge(n, e, env, ans, ctx);
      StepKeepsSound(n, e, env, ans, ctx);
      var (r, ctx') := Visit(n, e, env, ans, ctx);
      if Edge(n, r).Some? {
        RunIsSound(Edge(n, r).value, e, env, ans, ctx');
      }
    }
  }

  lemma GraphIsSound(e: Event, env: Environment, ans: Answers, snapshot: Case)
    ensures var run := RunGraph(e, env, ans, snapshot);
            Sound(End(run), e, env, ans, run.ctx) && run.ctx.snapshot == snapshot
  {
    hide Visit;
    RunIsSound(LoadCaseState, e, env, ans, Blank(snapshot));
  }

  /** An event is routed if and only if its department - the one it names, or else the legacy one - accepts the proposal
      for its type; the route is the declared one, in the order of the catalog. */
  lemma RoutesExactly(e: Event, env: Environment, proposal: seq<string>)
    ensures var named := if e.department != "" then Some(e.department)
                         else if env.catalog.Some? then env.catalog.value.legacyDepartment else None;
            (RouteOf(e, env, proposal).Some? <==>
               env.catalog.Some? && named.Some?
               && F.ValidateRoute(env.catalog, e.eventType, proposal, named.value).Routed?)
            && (RouteOf(e, env, proposal).Some? ==>
                  e.eventType in env.catalog.value.eventRoutes
                  && forall a :: a in RouteOf(e, env, proposal).value <==>
                       a in F.RoutableIds(env.catalog.value.agents) && a in env.catalog.value.eventRoutes[e.eventType])
  {
    hide F.RoutableIds;
    F.ResolvedExactly(env.catalog, e.eventType, proposal, e.department);
    if RouteOf(e, env, proposal).Some? {
      F.KeepIsExact(F.RoutableIds(env.catalog.value.agents), env.catalog.value.eventRoutes[e.eventType]);
    }
  }

  /** A run that finishes found its document tainted if and only if its event names one, it could be loaded, and some
      page of it is suspicious; and the evidence it took, if any, was extracted from that document. */
  lemma OnlyNamedDocumentsCount(e: Event, env: Environment, ans: Answers, snapshot: Case)
    requires RunGraph(e, env, ans, snapshot).fate.Finished?
    ensures var ctx := RunGraph(e, env, ans, snapshot).ctx;
            (ctx.tainted <==>
               e.hasRef && env.document.Some?
               && exists n :: 0 <= n < |env.document.value.pages|
                              && I.SuspiciousPage(env.directives, env.signals, env.digit, env.document.value.pages[n]))
            && (ctx.evidence.Some? ==>
                  e.hasRef && env.document.Some? && ctx.evidence.value.Object?
                  && ctx.evidence.value.Get("document_checksum") == J.Str(env.document.value.checksum))
  {
    hide Visit, Verdict, GateRaises, I.Tainted, I.SuspiciousPage, G.CheckFields;
    GraphIsSound(e, env, ans, snapshot);
    if env.document.Some? {
      I.TaintedIffOneSentenceCarriesBoth(env.directives, env.signals, env.digit, env.document.value.pages);
    }
  }

  /** Commands are only committed on a clear verdict and only parked on a review, both reached through the
      gate; a blocked verdict and a refused or ungrounded event end in quarantine. */
  lemma TerminalsCarryTheirVerdict(e: Event, env: Environment, ans: Answers, snapshot: Case)
    ensures var run := RunGraph(e, env, ans, snapshot);
            (run.fate.Finished? <==> Terminal(End(run)))
            && (End(run).CommitCommands? <==> run.ctx.policy.Some? && run.ctx.policy.value.band == Clear)
            && (End(run).ParkCase? <==> run.ctx.policy.Some? && run.ctx.policy.value.band == Review)
            && (End(run).QuarantineCase? <==>
                  run.fate.Finished? && (run.ctx.policy.None? || run.ctx.policy.value.band == Blocked))
            && (run.ctx.policy.Some? ==> !run.ctx.policy.value.band.Foreign?)
  {
    hide Visit, Verdict, GateRaises;
    GraphIsSound(e, env, ans, snapshot);
  }

  /* ---- how runs end ---- */

  lemma {:induction false} HowRunsEndFrom(n: Node, e: Event, env: Environment, ans: Answers, ctx: Context)
    ensures var run := RunFrom(n, e, env, ans, ctx);
            (run.fate.Raised? <==> !Terminal(End(run)) && NodeRaises(End(run), e, env, ans, run.ctx))
            && (run.fate.Stranded? ==> CarriesForeign(End(run), run.ctx))
            && (!run.fate.Stranded? ==> !CarriesForeign(End(run), run.ctx) || run.fate.Raised?)
    decreases Rank(n, ctx.attempts)
  {
    hide Visit, NodeRaises;
    if !Terminal(n) {
      EveryRouteHasAnEdge(n, e, env, ans, ctx);
      var (r, ctx') := Visit(n, e, env, ans, ctx);
      if Edge(n, r).Some? {
        HowRunsEndFrom(Edge(n, r).value, e, env, ans, ctx');
      }
    }
  }

  predicate CarriesForeign(n: Node, ctx: Context) {
    n.AssessRisk? && ctx.screening.None? && !ctx.tainted && ctx.snapshot.policy.Stored?
      && ctx.snapshot.policy.verdict.band.Foreign?
  }

  /** A run ends short of a terminal exactly when its last node raises, or is the gate carrying, for an untainted
      document, a stored verdict whose band is outside the vocabulary. */
  lemma HowRunsEnd(e: Event, env: Environment, ans: Answers, snapshot: Case)
    ensures var run := RunGraph(e, env, ans, snapshot);
            (run.fate.Finished? <==> Terminal(End(run)))
            && (run.fate.Raised? <==> !Terminal(End(run)) && NodeRaises(End(run), e, env, ans, run.ctx))
            && (run.fate.Stranded? <==> CarriesForeign(End(run), run.ctx))
  {
    hide Visit;
    HowRunsEndFrom(LoadCaseState, e, env, ans, Blank(snapshot));
    var run := RunGraph(e, env, ans, snapshot);
    assert CarriesForeign(End(run), run.ctx) ==> !NodeRaises(End(run), e, env, ans, run.ctx);
  }

  /** Answers of ordinary shape and size, and a stored band of the vocabulary. */
  ghost predicate Ordinary(ans: Answers, snapshot: Case) {
    && !ReadScreen(ans.service).Broken?
    && (ReadScreen(ans.service).Answered? ==>
          forall c :: c in ReadScreen(ans.service).candidates ==>
              J.Object(c).Get("id").Hashable() && J.FitsFloat(R.Score(J.Object(c))))
    && (forall k: nat, f :: f in FieldsOf(ans.extraction(k)) ==> !G.HugeConfidence(f))
    && (snapshot.policy.Stored? ==> !snapshot.policy.verdict.band.Foreign?)
  }

  function FieldsOf(raw: J.Json): seq<J.Json> {
    if raw.Get("fields").List? then raw.Get("fields").items else []
  }

  /** On ordinary answers every run finishes, whatever they say. */
  lemma OrdinaryRunsFinish(e: Event, env: Environment, ans: Answers, snapshot: Case)
    requires Ordinary(ans, snapshot)
    ensures RunGraph(e, env, ans, snapshot).fate.Finished?
  {
    hide Visit, RunFrom, ReadScreen, ScreenJson, G.HugeConfidence, J.FitsFloat, GateRaises, Verdict;
    var run := RunGraph(e, env, ans, snapshot);
    HowRunsEnd(e, env, ans, snapshot);
    GraphIsSound(e, env, ans, snapshot);
    var n, ctx := End(run), run.ctx;
    if ctx.screening.Some? {
      OrdinaryScreen(env, ans, ctx);
    } else {
      assert !GateRaises(env, ctx) && Known(ctx) == [] by { NothingScreened(env, ctx); }
    }
    if ctx.derivative.Some? {
      ExtractionsAreChecked(ans.extraction(ctx.attempts), ctx.derivative.value, env.digit);
    }
  }

  lemma NothingScreened(env: Environment, ctx: Context)
    requires ctx.screening.None?
    ensures !GateRaises(env, ctx) && Known(ctx) == []
  {
  }

  lemma OrdinaryScreen(env: Environment, ans: Answers, ctx: Context)
    requires !ReadScreen(ans.service).Broken? && ctx.screening == Some(ScreenJson(ReadScreen(ans.service)))
    requires ReadScreen(ans.service).Answered? ==>
               forall c :: c in ReadScreen(ans.service).candidates ==>
                   J.Object(c).Get("id").Hashable() && J.FitsFloat(R.Score(J.Object(c)))
    ensures !GateRaises(env, ctx)
    ensures forall c :: c in Known(ctx) ==> c.Get("id").Hashable()
  {
    hide ReadScreen, R.AssessCase, J.FitsFloat;
    var s := ReadScreen(ans.service);
    OrdinaryScreensAreScored(env, s, CaseFlags(ctx.tainted));
    forall c | c in Known(ctx) ensures c.Get("id").Hashable() {
      var i :| 0 <= i < |Known(ctx)| && Known(ctx)[i] == c;
      assert s.Answered? && c == J.Object(s.candidates[i]) && s.candidates[i] in s.candidates;
    }
  }

  lemma ExtractionsAreChecked(raw: J.Json, d: G.Derivative, digit: G.Chars)
    requires forall f :: f in FieldsOf(raw) ==> !G.HugeConfidence(f)
    ensures !G.Validate(raw, d, digit).Raised?
  {
    hide G.CheckFields, G.HugeConfidence;
    G.RaisesExactlyOnHugeConfidence(FieldsOf(raw), d, digit);
  }

  /** A tainted document never leads to a command: its run ends in quarantine on every path, without evidence,
      unless screening the supplier raises before the gate is reached. */
  lemma TaintedRunsAreQuarantined(e: Event, env: Environment, ans: Answers, snapshot: Case)
    requires DocumentTainted(e, env)
    ensures var run := RunGraph(e, env, ans, snapshot);
            run.ctx.evidence.None?
            && (End(run).QuarantineCase? <==> run.fate.Finished?)
            && (run.fate.Finished? <==> !NodeRaises(End(run), e, env, ans, run.ctx))
            && (!run.fate.Finished? ==>
                End(run).ScreenSupplier? || End(run).ApplyCompliance?
                  || (End(run).AssessRisk? && run.ctx.screening.Some?))
  {
    hide Visit, Verdict, I.Tainted, ReadScreen, R.AssessCase;
    var run := RunGraph(e, env, ans, snapshot);
    GraphIsSound(e, env, ans, snapshot);
    TerminalsCarryTheirVerdict(e, env, ans, snapshot);
    HowRunsEnd(e, env, ans, snapshot);
    if run.ctx.policy.Some? {
      TaintBlocks(env, run.ctx);
    }
  }

  /* ---- agents ---- */

  function Visits(trace: seq<Node>, n: Node): nat {
    if trace == [] then 0 else (if trace[0] == n then 1 else 0) + Visits(trace[1..], n)
  }

  /** Extractions still possible from a node on. */
  function ExtractionsLeft(n: Node, attempts: nat): nat {
    match n
    case EvidenceAgent => if attempts == 0 then 2 else 1
    case ValidateEvidence => if attempts == 0 then 1 else 0
    case LoadCaseState => 2
    case Coordinator => 2
    case ApplyRoute => 2
    case _ => 0
  }

  lemma {:induction false} ExtractionsAreBounded(n: Node, e: Event, env: Environment, ans: Answers, ctx: Context)
    requires n.Coordinator? || n.ApplyRoute? ==> ctx.attempts == 0
    ensures Visits(RunFrom(n, e, env, ans, ctx).trace, EvidenceAgent) <= ExtractionsLeft(n, ctx.attempts)
    decreases Rank(n, ctx.attempts)
  {
    if !Terminal(n) {
      EveryRouteHasAnEdge(n, e, env, ans, ctx);
      var (r, ctx') := Visit(n, e, env, ans, ctx);
      assert [n][1..] == [];
      if Edge(n, r).Some? {
        var next := Edge(n, r).value;
        AttemptsMove(n, e, env, ans, ctx);
        ExtractionsAreBounded(next, e, env, ans, ctx');
        var rest := RunFrom(next, e, env, ans, ctx').trace;
        assert ([n] + rest)[1..] == rest;
      }
    } else {
      assert [n][1..] == [];
    }
  }

  lemma AttemptsMove(n: Node, e: Event, env: Environment, ans: Answers, ctx: Context)
    requires !Terminal(n)
    requires n.Coordinator? || n.ApplyRoute? ==> ctx.attempts == 0
    ensures var (r, ctx') := Visit(n, e, env, ans, ctx);
            Edge(n, r).Some? ==>
            (Edge(n, r).value.Coordinator? || Edge(n, r).value.ApplyRoute? ==> ctx'.attempts == 0)
            && (if n.EvidenceAgent? then 1 else 0) + ExtractionsLeft(Edge(n, r).value, ctx'.attempts)
               <= ExtractionsLeft(n, ctx.attempts)
  {
    hide RouteOf, Verdict, G.Validate, I.Tainted, ScreenJson;
    EveryRouteHasAnEdge(n, e, env, ans, ctx);
  }

  /** Whatever the extractor answers, it is asked at most twice per run. */
  lemma AtMostTwoExtractions(e: Event, env: Environment, ans: Answers, snapshot: Case)
    ensures Visits(RunGraph(e, env, ans, snapshot).trace, EvidenceAgent) <= 2
  {
    ExtractionsAreBounded(LoadCaseState, e, env, ans, Blank(snapshot));
  }

  /** A clock event visits the gate and then a terminal, and no agent; only a carried verdict with a band outside
      the vocabulary leaves it at the gate. */
  lemma ClockEventsEngageNoAgent(e: Event, env: Environment, ans: Answers, snapshot: Case)
    requires e.eventType == "renewal_due" || e.eventType == "evidence_overdue"
    ensures var run := RunGraph(e, env, ans, snapshot);
            var strayed := !run.ctx.tainted && snapshot.policy.Stored? && snapshot.policy.verdict.band.Foreign?;
            |run.trace| == (if strayed then 2 else 3) && run.trace[..2] == [LoadCaseState, AssessRisk]
            && (run.fate == if strayed then Stranded else Finished)
            && forall i :: 0 <= i < |run.trace| ==> !IsAgent(run.trace[i])
  {
    hide Verdict, I.Tainted, Visit, Gate, GateRaises;
    var ctx := LoadCase(e, env, snapshot).1;
    VisitsOf(e, env, ans, snapshot, ctx);
    NothingScreened(env, ctx);
    EveryRouteHasAnEdge(AssessRisk, e, env, ans, ctx);
    var (r, ctx') := Gate(env, ctx);
    assert !r.Escaped? && ctx'.tainted == ctx.tainted by { GateAnswersABand(env, ctx); }
    if Edge(AssessRisk, r).Some? {
      var next := Edge(AssessRisk, r).value;
      assert Terminal(next);
      assert RunFrom(next, e, env, ans, ctx').trace == [next];
      assert RunFrom(AssessRisk, e, env, ans, ctx).trace == [AssessRisk, next];
    } else {
      assert RunFrom(AssessRisk, e, env, ans, ctx).trace == [AssessRisk];
    }
  }

  lemma GateAnswersABand(env: Environment, ctx: Context)
    requires !GateRaises(env, ctx)
    ensures Gate(env, ctx).0.Banded? && Gate(env, ctx).1 == ctx.(policy := Gate(env, ctx).1.policy)
  {
  }

  lemma VisitsOf(e: Event, env: Environment, ans: Answers, snapshot: Case, ctx: Context)
    ensures Visit(LoadCaseState, e, env, ans, Blank(snapshot)) == LoadCase(e, env, snapshot)
    ensures Visit(AssessRisk, e, env, ans, ctx) == Gate(env, ctx)
  {
  }

  /* ---- the stored verdict ---- */

  /** The policy block a run would leave: its verdict when it reached the gate, unchanged otherwise. */
  function PolicyAfter(run: Run, before: PolicyBlock): PolicyBlock {
    if run.ctx.policy.Some? then Stored(run.ctx.policy.value) else before
  }

  /* ---- provenance ---- */

  /** The decision a terminal takes from a run. */
  function DecisionOf(e: Event, env: Environment, run: Run): L.Outcome {
    L.Decide(LifecycleOf(run.ctx.snapshot), LifecycleEvent(e), run.ctx.evidence, R.LifecycleTiming(env.policy))
  }

  function LifecycleEvent(e: Event): L.Event {
    L.Event(if e.eventType == "new_supplier_packet" then L.NewSupplierPacket
            else if e.eventType == "renewal_due" then L.RenewalDue
            else if e.eventType == "evidence_overdue" then L.EvidenceOverdue
            else if e.eventType == "certificate_received" then L.CertificateReceived
            else L.UnknownType, e.supplier, e.on)
  }

  /** What the four types of event a case knows lead to, in the event's own terms: an overdue notice holds, a due notice
      requests a renewal, a certificate renews, and a packet opens the case; no other type does anything. */
  lemma EventsDecideExactly(e: Event, env: Environment, run: Run)
    requires DecisionOf(e, env, run).Decided?
    ensures var d := DecisionOf(e, env, run).decision;
            var s := LifecycleOf(run.ctx.snapshot);
            var stored := L.StoredExpiry(s);
            var t := if env.policy.Some? then env.policy.value.timing else L.Timing(0, 0);
            (d.reason == L.HeldOverdue <==>
               e.eventType == "evidence_overdue" && s.state == L.RenewalRequested && e.on.Some? && stored.Some?
               && D.Ordinal(e.on.value) > D.Ordinal(stored.value) + t.overdueGraceDays)
            && (d.reason == L.RenewalRequestedReason <==>
                  e.eventType == "renewal_due" && s.state == L.Active && e.on.Some? && stored.Some?
                  && D.Ordinal(e.on.value) + t.renewalWindowDays >= D.Ordinal(stored.value))
            && (d.reason == L.Renewed <==>
                  e.eventType == "certificate_received" && e.on.Some? && L.OffersLater(s, run.ctx.evidence))
            && (d.reason == L.Onboarded || d.reason == L.AwaitingEvidence <==>
                  e.eventType == "new_supplier_packet" && e.on.Some? && s.state == L.Onboarding)
            && (e.eventType !in {"evidence_overdue", "renewal_due", "certificate_received", "new_supplier_packet"} ==>
                  d.commands == [] && d.state == s.state && d.cycle == s.cycle && d.certificate.None?)
  {
    hide L.Decide, L.StoredExpiry, D.Ordinal, L.ExpiryFromEvidence;
    L.DecisionsExactly(LifecycleOf(run.ctx.snapshot), LifecycleEvent(e), run.ctx.evidence,
      R.LifecycleTiming(env.policy));
  }

  lemma CertificateComesFromEvidence(s: L.CaseState, e: L.Event, evidence: Option<J.Json>, t: L.Timing)
    requires L.Decide(s, e, evidence, t).Decided? && L.Decide(s, e, evidence, t).decision.certificate.Some?
    ensures L.ExpiryFromEvidence(evidence).Some?
    ensures var c := L.Decide(s, e, evidence, t).decision.certificate.value;
            c.expiryDate == D.Print(L.ExpiryFromEvidence(evidence).value)
            && c.checksum == evidence.value.Get("document_checksum")
  {
    hide D.Print, D.Parse, D.Ordinal, L.FirstExpiry;
  }

  /** Any expiry a run stores is the value of the first expiry field of the accepted extraction, stands verbatim in
      that field's cited span on its cited page of that event's own untainted document, alone of its shape there,
      and is stored with that document's checksum. */
  lemma StoredExpiryStandsOnThePage(e: Event, env: Environment, ans: Answers, snapshot: Case)
    requires var o := DecisionOf(e, env, RunGraph(e, env, ans, snapshot)); o.Decided? && o.decision.certificate.Some?
    ensures Derivative(e, env).Some? && !DocumentTainted(e, env)
    ensures var run := RunGraph(e, env, ans, snapshot);
            var c := DecisionOf(e, env, run).decision.certificate.value;
            run.ctx.evidence.Some?
              && (exists k: nat :: k < 2 && run.ctx.evidence.value == ans.extraction(k))
            && G.ExpiryCited(FieldsOf(run.ctx.evidence.value), c.expiryDate, Derivative(e, env).value, env.digit)
            && c.checksum == J.Str(Derivative(e, env).value.checksum)
  {
    hide D.Print, D.Parse, D.Ordinal, L.FirstExpiry, Visit, I.Tainted, L.Decide, G.Validate, Verdict;
    var run := RunGraph(e, env, ans, snapshot);
    GraphIsSound(e, env, ans, snapshot);
    CertificateComesFromEvidence(LifecycleOf(snapshot), LifecycleEvent(e), run.ctx.evidence,
      R.LifecycleTiming(env.policy));
    NoEvidenceNoExpiry(run.ctx.evidence);
    G.GroundedExpiryStandsOnThePage(run.ctx.evidence.value, run.ctx.derivative.value, env.digit);
  }

  lemma NoEvidenceNoExpiry(evidence: Option<J.Json>)
    ensures L.ExpiryFromEvidence(evidence).Some? ==> evidence.Some?
  {
  }
}
