/** The risk gate: versioned policy data scored over one screening (app/risk.py). Weights, scores and
    thresholds are reals; rounding to six places is half to even on the exact sum. */
module Risk {

  import opened Basics
  import L = Lifecycle
  import J = Json

  datatype Condition =
    | ScreeningMatch
    | CandidateAbove(floor: real)
    | ScreeningUnreachable
    | CaseFlag(flag: string)

  datatype Factor = Factor(id: string, weight: real, when: Condition)

  datatype Policy = Policy(id: string, version: int, review: real, block: real, timing: L.Timing, factors: seq<Factor>)

  datatype Fired = Fired(id: string, weight: real)

  datatype Verdict = Verdict(policyId: string, policyVersion: int, score: real, band: Band,
                             fired: seq<Fired>, reasons: seq<string>)

  /** `Raised` is an exception escaping the gate. */
  datatype Assessment = Scored(verdict: Verdict) | Raised

  /** What a policy file has been checked for by the time it is loaded. */
  predicate Loaded(p: Policy) {
    0.0 <= p.review <= p.block <= 1.0
    && forall f :: f in p.factors ==> 0.0 <= f.weight <= 1.0 && (f.when.CaseFlag? ==> f.when.flag != "")
  }

  /* ---- one condition ---- */

  datatype Hit = Fires | Quiet | Crashes

  predicate AboutScreen(c: Condition) { !c.CaseFlag? }

  function Items(screening: J.Json, key: string): seq<J.Json> {
    var v := screening.Get(key);
    if v.List? then v.items else []
  }

  function Score(candidate: J.Json): real {
    var v := candidate.Get("score");
    if v.IsNumber() then v.Number() else 0.0
  }

  /** The score recorded for an id: that of the last candidate carrying it. */
  function ScoreOf(candidates: seq<J.Json>, id: J.Json): real {
    if candidates == [] then 0.0
    else
      var last := candidates[|candidates| - 1];
      if last.Get("id") == id then Score(last) else ScoreOf(candidates[..|candidates| - 1], id)
  }

  /** The candidate with the highest score has one of at least `floor` that is too large to be written out. */
  predicate HugeTop(candidates: seq<J.Json>, floor: real) {
    exists x :: x in candidates && Score(x) >= floor && !J.FitsFloat(Score(x))
                && forall y :: y in candidates ==> Score(y) <= Score(x)
  }

  /** Conditions that fire also describe what made them; writing out a score that fits no float raises. Only a
      literal true sets a flag; any other truthy value does not. */
  function Evaluate(c: Condition, screening: J.Json, case_: map<string, J.Json>): Hit {
    match c
    case ScreeningMatch =>
      var flagged := Items(screening, "flagged");
      if flagged == [] then Quiet
      else if !J.FitsFloat(ScoreOf(Items(screening, "candidates"), flagged[0])) then Crashes
      else Fires
    case CandidateAbove(floor) =>
      if HugeTop(Items(screening, "candidates"), floor) then Crashes
      else if exists x :: x in Items(screening, "candidates") && Score(x) >= floor then Fires else Quiet
    case ScreeningUnreachable =>
      var error := screening.Get("error");
      if screening.Get("reachable") != J.Bool(false) then Quiet
      else if error.Truthy() && !error.Str? then Crashes
      else Fires
    case CaseFlag(flag) => if flag in case_ && case_[flag] == J.Bool(true) then Fires else Quiet
  }

  predicate MalformedCandidate(c: J.Json) {
    !c.Object?
    || ("id" in c.fields && !c.fields["id"].Str?)
    || ("score" in c.fields && !c.fields["score"].IsNumber())
  }

  predicate Malformed(screening: J.Json) {
    !screening.Object?
    || !screening.Get("reachable").Bool?
    || ("candidates" in screening.fields && !screening.fields["candidates"].List?)
    || (exists c :: c in Items(screening, "candidates") && MalformedCandidate(c))
    || ("flagged" in screening.fields && !screening.fields["flagged"].List?)
    || (exists f :: f in Items(screening, "flagged") && !f.Str?)
  }

  /* ---- the score ---- */

  /** A factor's hit under an optional screening: conditions about a screen are skipped without one. */
  function FactorHit(f: Factor, screening: Option<J.Json>, case_: map<string, J.Json>): Hit {
    if AboutScreen(f.when) && screening.None? then Quiet
    else Evaluate(f.when, if screening.Some? then screening.value else J.Object(map[]), case_)
  }

  /** The factors that fire, in policy order; None when evaluating one of them raises. */
  function FiredFactors(factors: seq<Factor>, screening: Option<J.Json>, case_: map<string, J.Json>)
    : Option<seq<Fired>>
  {
    if factors == [] then Some([])
    else
      var before := FiredFactors(factors[..|factors| - 1], screening, case_);
      var f := factors[|factors| - 1];
      if before.None? || FactorHit(f, screening, case_) == Crashes then None
      else if FactorHit(f, screening, case_) == Fires then Some(before.value + [Fired(f.id, f.weight)])
      else before
  }

  function Sum(fired: seq<Fired>): real {
    if fired == [] then 0.0 else Sum(fired[..|fired| - 1]) + fired[|fired| - 1].weight
  }

  function NearestMicro(m: real): int {
    var f := m.Floor;
    var rest := m - f as real;
    if rest < 0.5 || (rest == 0.5 && f % 2 == 0) then f else f + 1
  }

  function Round6(x: real): real {
    NearestMicro(x * 1000000.0) as real / 1000000.0
  }

  function Clamp(x: real): real {
    if x < 1.0 then x else 1.0
  }

  function BandOf(p: Policy, score: real): Band {
    if score >= p.block then Blocked else if score >= p.review then Review else Clear
  }

  function Blocking(id: string, version: int, reason: string): Verdict {
    Verdict(id, version, 1.0, Blocked, [], [reason])
  }

  function Conclude(p: Policy, fired: seq<Fired>): Verdict {
    var score := Clamp(Round6(Sum(fired)));
    Verdict(p.id, p.version, score, BandOf(p, score), fired, [])
  }

  function Assess(p: Policy, screening: Option<J.Json>, case_: map<string, J.Json>): Assessment {
    if screening.Some? && Malformed(screening.value) then Scored(Blocking(p.id, p.version, "SCREENING_MALFORMED"))
    else
      var fired := FiredFactors(p.factors, screening, case_);
      if fired.None? then Raised else Scored(Conclude(p, fired.value))
  }

  /** The scoring loop: evaluates the factors in order and collects those that fire. */
  method ScoreCase(p: Policy, screening: Option<J.Json>, case_: map<string, J.Json>) returns (r: Assessment)
    ensures r == Assess(p, screening, case_)
  {
    if screening.Some? && Malformed(screening.value) {
      return Scored(Blocking(p.id, p.version, "SCREENING_MALFORMED"));
    }
    var fired: seq<Fired> := [];
    var i := 0;
    while i < |p.factors|
      invariant 0 <= i <= |p.factors|
      invariant FiredFactors(p.factors[..i], screening, case_) == Some(fired)
    {
      var f := p.factors[i];
      assert p.factors[..i + 1][..i] == p.factors[..i];
      var hit := FactorHit(f, screening, case_);
      if hit == Crashes {
        CrashSticks(p.factors, i, screening, case_);
        return Raised;
      }
      if hit == Fires {
        fired := fired + [Fired(f.id, f.weight)];
      }
      i := i + 1;
    }
    assert p.factors[..i] == p.factors;
    r := Scored(Conclude(p, fired));
  }

  lemma {:induction false} CrashSticks(factors: seq<Factor>, i: nat, screening: Option<J.Json>,
                                       case_: map<string, J.Json>)
    requires i < |factors| && FactorHit(factors[i], screening, case_) == Crashes
    ensures FiredFactors(factors, screening, case_).None?
  {
    if i < |factors| - 1 {
      CrashSticks(factors[..|factors| - 1], i, screening, case_);
    }
  }

  /** Loading the policy may fail; the gate then blocks. */
  function AssessCase(p: Option<Policy>, screening: Option<J.Json>, case_: map<string, J.Json>): Assessment {
    if p.None? then Scored(Blocking("unavailable", 0, "POLICY_UNAVAILABLE")) else Assess(p.value, screening, case_)
  }

  function LifecycleTiming(p: Option<Policy>): L.Timing {
    if p.None? then L.Timing(0, 0) else p.value.timing
  }

  /* ---- totality ---- */

  /** What makes a condition raise on a well-formed screening: an unreachable one whose error is truthy but no
      text, a match whose last candidate has a score too large to write out, or such a score at the top. */
  ghost predicate Unwritable(c: Condition, screening: J.Json) {
    var flagged, candidates := Items(screening, "flagged"), Items(screening, "candidates");
    match c
    case ScreeningUnreachable =>
      screening.Get("reachable") == J.Bool(false) && screening.Get("error").Truthy() && !screening.Get("error").Str?
    case ScreeningMatch =>
      flagged != []
      && exists i :: 0 <= i < |candidates| && candidates[i].Get("id") == flagged[0]
                     && !J.FitsFloat(Score(candidates[i]))
                     && forall j :: i < j < |candidates| ==> candidates[j].Get("id") != flagged[0]
    case CandidateAbove(floor) =>
      exists i :: 0 <= i < |candidates| && Score(candidates[i]) >= floor && !J.FitsFloat(Score(candidates[i]))
                  && forall j :: 0 <= j < |candidates| ==> Score(candidates[j]) <= Score(candidates[i])
    case CaseFlag(_) => false
  }

  /** The gate documents itself as total. It raises exactly on a well-formed screening that some condition of
      the policy cannot describe. */
  lemma {:induction false} GateRaisesExactly(p: Policy, screening: Option<J.Json>, case_: map<string, J.Json>)
    ensures Assess(p, screening, case_).Raised? <==>
              screening.Some? && !Malformed(screening.value)
              && exists f :: f in p.factors && Unwritable(f.when, screening.value)
  {
    hide Malformed, Evaluate, Unwritable;
    if !(screening.Some? && Malformed(screening.value)) {
      NoneIffCrash(p.factors, screening, case_);
      if screening.Some? {
        forall f | f in p.factors
          ensures FactorHit(f, screening, case_) == Crashes <==> Unwritable(f.when, screening.value)
        {
          CrashesExactly(f.when, screening.value, case_);
        }
      } else {
        forall f | f in p.factors ensures FactorHit(f, screening, case_) != Crashes { FlagsNeverCrash(f.when, case_); }
      }
    }
  }

  lemma FlagsNeverCrash(c: Condition, case_: map<string, J.Json>)
    ensures c.CaseFlag? ==> Evaluate(c, J.Object(map[]), case_) != Crashes
  {
  }

  lemma CrashesExactly(c: Condition, screening: J.Json, case_: map<string, J.Json>)
    ensures Evaluate(c, screening, case_) == Crashes <==> Unwritable(c, screening)
  {
    hide J.FitsFloat;
    var candidates := Items(screening, "candidates");
    if c.ScreeningMatch? && Items(screening, "flagged") != [] {
      LastScoreCounts(candidates, Items(screening, "flagged")[0]);
    }
    if c.CandidateAbove? && HugeTop(candidates, c.floor) {
      var x :| x in candidates && Score(x) >= c.floor && !J.FitsFloat(Score(x))
               && forall y :: y in candidates ==> Score(y) <= Score(x);
      var i :| 0 <= i < |candidates| && candidates[i] == x;
      assert forall j :: 0 <= j < |candidates| ==> Score(candidates[j]) <= Score(candidates[i]);
    }
  }

  lemma {:induction false} LastScoreCounts(candidates: seq<J.Json>, id: J.Json)
    ensures !J.FitsFloat(ScoreOf(candidates, id)) <==>
              exists i :: 0 <= i < |candidates| && candidates[i].Get("id") == id && !J.FitsFloat(Score(candidates[i]))
                          && forall j :: i < j < |candidates| ==> candidates[j].Get("id") != id
  {
    if candidates != [] {
      var last := |candidates| - 1;
      LastScoreCounts(candidates[..last], id);
      if candidates[last].Get("id") != id {
        assert forall i :: 0 <= i < last ==> candidates[..last][i] == candidates[i];
      }
    }
  }

  lemma {:induction false} NoneIffCrash(factors: seq<Factor>, screening: Option<J.Json>, case_: map<string, J.Json>)
    ensures FiredFactors(factors, screening, case_).None? <==>
              exists f :: f in factors && FactorHit(f, screening, case_) == Crashes
  {
    if factors != [] {
      var init := factors[..|factors| - 1];
      NoneIffCrash(init, screening, case_);
      assert forall f :: f in factors <==> f in init || f == factors[|factors| - 1];
    }
  }

  /** A screening with an untyped error, and one with a huge score, on which a loaded policy raises. */
  lemma GateIsNotTotal() returns (p: Policy, untyped: J.Json, huge: J.Json)
    ensures Loaded(p) && Assess(p, Some(untyped), map[]) == Raised && Assess(p, Some(huge), map[]) == Raised
  {
    hide J.FloatLimit, Assess, Unwritable, Malformed;
    p := Policy("p", 1, 0.2, 0.6, L.Timing(35, 0),
                [Factor("SCREENING_UNAVAILABLE", 0.3, ScreeningUnreachable),
                  Factor("SCREENING_CANDIDATE", 0.3, CandidateAbove(0.7))]);
    untyped := J.Object(map["reachable" := J.Bool(false), "error" := J.Int(5)]);
    huge := HugeScreen();
    assert p.factors[0] in p.factors && p.factors[1] in p.factors;
    UntypedIsUnwritable(untyped);
    HugeIsUnwritable();
    GateRaisesExactly(p, Some(untyped), map[]);
    GateRaisesExactly(p, Some(huge), map[]);
  }

  function HugeScreen(): J.Json {
    J.Object(map["reachable" := J.Bool(true),
                 "candidates" := J.List([J.Object(map["id" := J.Str("Q1"), "score" := J.Int(J.FloatLimit())])])])
  }

  lemma UntypedIsUnwritable(s: J.Json)
    requires s == J.Object(map["reachable" := J.Bool(false), "error" := J.Int(5)])
    ensures !Malformed(s) && Unwritable(ScreeningUnreachable, s)
  {
  }

  lemma HugeIsUnwritable()
    ensures !Malformed(HugeScreen()) && Unwritable(CandidateAbove(0.7), HugeScreen())
  {
    hide J.FloatLimit;
    var candidates := Items(HugeScreen(), "candidates");
    assert |candidates| == 1 && Score(candidates[0]) == J.FloatLimit() as real;
  }

  /* ---- what a verdict says ---- */

  /** The condition holds of the screening or the case: an id is flagged, a candidate's score - zero if it has none -
      reaches the floor, the service was not reachable, or a flag of the case is literally true. */
  ghost predicate Holds(c: Condition, screening: Option<J.Json>, case_: map<string, J.Json>) {
    match c
    case ScreeningMatch =>
      screening.Some? && screening.value.Get("flagged").List? && |screening.value.Get("flagged").items| > 0
    case CandidateAbove(floor) =>
      screening.Some? && screening.value.Get("candidates").List?
      && exists i :: 0 <= i < |screening.value.Get("candidates").items|
                     && Reaches(screening.value.Get("candidates").items[i].Get("score"), floor)
    case ScreeningUnreachable => screening.Some? && screening.value.Get("reachable") == J.Bool(false)
    case CaseFlag(flag) => flag in case_ && case_[flag].Bool? && case_[flag].b
  }

  predicate Reaches(score: J.Json, floor: real) {
    (score.Int? && score.n as real >= floor) || (score.Float? && score.x >= floor)
    || (!score.IsNumber() && 0.0 >= floor)
  }

  /** The factors whose condition holds, in the order of the policy. */
  ghost function Holding(factors: seq<Factor>, screening: Option<J.Json>, case_: map<string, J.Json>): seq<Fired> {
    if factors == [] then []
    else (if Holds(factors[0].when, screening, case_) then [Fired(factors[0].id, factors[0].weight)] else [])
         + Holding(factors[1..], screening, case_)
  }

  function Total(fired: seq<Fired>): real {
    if fired == [] then 0.0 else fired[0].weight + Total(fired[1..])
  }

  lemma HitsAreHolding(f: Factor, screening: Option<J.Json>, case_: map<string, J.Json>)
    requires FactorHit(f, screening, case_) != Crashes
    ensures FactorHit(f, screening, case_) == Fires <==> Holds(f.when, screening, case_)
  {
    hide J.FitsFloat;
    if f.when.CandidateAbove? && screening.Some? && screening.value.Get("candidates").List? {
      var cs := screening.value.Get("candidates").items;
      assert forall i :: 0 <= i < |cs| ==>
                           (Reaches(cs[i].Get("score"), f.when.floor) <==> Score(cs[i]) >= f.when.floor);
      if i :| 0 <= i < |cs| && Reaches(cs[i].Get("score"), f.when.floor) { assert cs[i] in cs; }
    }
  }

  lemma {:induction false} HoldingGrows(factors: seq<Factor>, f: Factor, screening: Option<J.Json>,
                                        case_: map<string, J.Json>)
    ensures Holding(factors + [f], screening, case_) ==
              Holding(factors, screening, case_)
              + if Holds(f.when, screening, case_) then [Fired(f.id, f.weight)] else []
  {
    hide Holds;
    if factors != [] {
      assert (factors + [f])[1..] == factors[1..] + [f];
      HoldingGrows(factors[1..], f, screening, case_);
    } else {
      assert [f][1..] == [] && Holding([], screening, case_) == [];
    }
  }

  lemma {:induction false} FiredAreHolding(factors: seq<Factor>, screening: Option<J.Json>, case_: map<string, J.Json>)
    requires FiredFactors(factors, screening, case_).Some?
    ensures FiredFactors(factors, screening, case_).value == Holding(factors, screening, case_)
  {
    hide Holds, FactorHit;
    if factors != [] {
      var init, last := factors[..|factors| - 1], factors[|factors| - 1];
      FiredAreHolding(init, screening, case_);
      HitsAreHolding(last, screening, case_);
      HoldingGrows(init, last, screening, case_);
      assert factors == init + [last];
    }
  }

  lemma {:induction false} TotalGrows(fired: seq<Fired>, x: Fired)
    ensures Total(fired + [x]) == Total(fired) + x.weight
  {
    if fired != [] {
      assert (fired + [x])[1..] == fired[1..] + [x];
      TotalGrows(fired[1..], x);
    } else {
      assert [x][1..] == [] && Total([]) == 0.0;
    }
  }

  lemma {:induction false} SumIsTotal(fired: seq<Fired>)
    ensures Sum(fired) == Total(fired)
  {
    if fired != [] {
      var init, last := fired[..|fired| - 1], fired[|fired| - 1];
      SumIsTotal(init);
      TotalGrows(init, last);
      assert fired == init + [last];
    }
  }

  /** A score rounded to six digits: the nearest multiple of a millionth, the even one of two. */
  ghost predicate Nearest(x: real, y: real) {
    exists m: int :: Millionths(y, m) && Rounds(x * 1000000.0, m)
  }

  ghost predicate Millionths(y: real, m: int) { y * 1000000.0 == m as real }

  ghost predicate Rounds(x: real, m: int) {
    -0.5 <= x - m as real <= 0.5 && ((x - m as real == 0.5 || m as real - x == 0.5) ==> m % 2 == 0)
  }

  lemma RoundIsNearest(x: real)
    ensures Nearest(x, Round6(x))
  {
    var m := NearestMicro(x * 1000000.0);
    assert Millionths(Round6(x), m) && Rounds(x * 1000000.0, m);
  }

  /** What a verdict says of a well-formed screening: it fires exactly the factors that hold, in order; its score is
      their total, rounded to the nearest millionth and at most one; and its band is blocked from the block threshold
      on, review from the review threshold up to it, and clear below both. */
  lemma VerdictsExactly(p: Policy, screening: Option<J.Json>, case_: map<string, J.Json>)
    requires Loaded(p) && (screening.Some? ==> WellFormed(screening.value)) && Assess(p, screening, case_).Scored?
    ensures var v := Assess(p, screening, case_).verdict;
            var holding := Holding(p.factors, screening, case_);
            v.policyId == p.id && v.policyVersion == p.version && v.fired == holding && v.reasons == []
            && (exists y: real :: Nearest(Total(holding), y) && v.score == if y < 1.0 then y else 1.0)
            && (v.band == Blocked <==> v.score >= p.block)
            && (v.band == Review <==> p.review <= v.score < p.block)
            && (v.band == Clear <==> v.score < p.review)
  {
    hide Malformed, WellFormed, FiredFactors, Round6, Sum, Nearest;
    if screening.Some? { WellFormedExactly(screening.value); }
    FiredAreHolding(p.factors, screening, case_);
    SumIsTotal(Holding(p.factors, screening, case_));
    RoundIsNearest(Total(Holding(p.factors, screening, case_)));
  }

  /** A screening as the service is expected to record one: whether it was reachable, candidates whose ids are texts and
      scores numbers where they have them, and flagged ids that are texts. */
  ghost predicate WellFormed(s: J.Json) {
    s.Object? && "reachable" in s.fields && s.fields["reachable"].Bool?
    && ("candidates" in s.fields ==>
          s.fields["candidates"].List?
          && forall i :: 0 <= i < |s.fields["candidates"].items| ==>
                           WellFormedCandidate(s.fields["candidates"].items[i]))
    && ("flagged" in s.fields ==>
          s.fields["flagged"].List?
          && forall i :: 0 <= i < |s.fields["flagged"].items| ==> s.fields["flagged"].items[i].Str?)
  }

  ghost predicate WellFormedCandidate(c: J.Json) {
    c.Object? && ("id" in c.fields ==> c.fields["id"].Str?)
    && ("score" in c.fields ==> c.fields["score"].Int? || c.fields["score"].Float?)
  }

  /** Any other screening is blocked, under the policy's name and with a reason of its own. */
  lemma WellFormedExactly(s: J.Json)
    ensures Malformed(s) <==> !WellFormed(s)
  {
    if s.Object? && "candidates" in s.fields && s.fields["candidates"].List? {
      var cs := s.fields["candidates"].items;
      assert forall i :: 0 <= i < |cs| ==> cs[i] in cs;
      assert forall i :: 0 <= i < |cs| ==> (MalformedCandidate(cs[i]) <==> !WellFormedCandidate(cs[i]));
    }
    if s.Object? && "flagged" in s.fields && s.fields["flagged"].List? {
      var fs := s.fields["flagged"].items;
      assert forall i :: 0 <= i < |fs| ==> fs[i] in fs;
    }
  }

  lemma MalformedIsBlocked(p: Policy, s: J.Json, case_: map<string, J.Json>)
    requires !WellFormed(s)
    ensures var a := Assess(p, Some(s), case_);
            a.Scored? && a.verdict.band == Blocked && a.verdict.score == 1.0 && a.verdict.fired == []
            && a.verdict.policyId == p.id && a.verdict.policyVersion == p.version
            && a.verdict.reasons == ["SCREENING_MALFORMED"]
  {
    hide Malformed, WellFormed;
    WellFormedExactly(s);
  }

  /** Without a policy the gate blocks, the window is closed before the expiry and no day of grace is given. */
  lemma NoPolicyWithholds(screening: Option<J.Json>, case_: map<string, J.Json>, s: L.CaseState, e: L.Event,
                          evidence: Option<J.Json>)
    ensures AssessCase(None, screening, case_).Scored? && AssessCase(None, screening, case_).verdict.band == Blocked
    ensures var o := L.Decide(s, e, evidence, LifecycleTiming(None));
            o.Decided? ==>
              (o.decision.reason == L.RenewalRequestedReason ==> L.WithinWindow(s, e, 0))
              && (s.state == L.RenewalRequested && e.kind == L.EvidenceOverdue && L.AfterExpiry(s, e, 0) ==>
                    o.decision.reason == L.HeldOverdue)
  {
    hide L.Decide;
    if L.Decide(s, e, evidence, LifecycleTiming(None)).Decided? {
      L.DecisionsExactly(s, e, evidence, LifecycleTiming(None));
    }
  }

  /* ---- monotonicity ---- */

  /** `b` is at least as alarming a screen as `a`: no candidate or flag is lost, no score falls, and a screen
      that could not be reached stays unreached. Anything malformed is above everything well formed. */
  ghost predicate AtLeast(b: Option<J.Json>, a: Option<J.Json>) {
    a.None?
    || (b.Some?
        && (Malformed(b.value)
            || (!Malformed(a.value)
                && (a.value.Get("reachable") == J.Bool(false) ==> b.value.Get("reachable") == J.Bool(false))
                && (Items(a.value, "flagged") != [] ==> Items(b.value, "flagged") != [])
                && forall x :: x in Items(a.value, "candidates") ==>
                     exists y :: y in Items(b.value, "candidates") && Score(y) >= Score(x))))
  }

  predicate FlagsKept(b: map<string, J.Json>, a: map<string, J.Json>) {
    forall k :: k in a && a[k] == J.Bool(true) ==> k in b && b[k] == J.Bool(true)
  }

  lemma HitIsMonotone(f: Factor, a: Option<J.Json>, ca: map<string, J.Json>, b: Option<J.Json>, cb: map<string, J.Json>)
    requires AtLeast(b, a) && FlagsKept(cb, ca)
    requires a.Some? ==> !Malformed(a.value)
    requires b.Some? ==> !Malformed(b.value)
    requires FactorHit(f, a, ca) == Fires && FactorHit(f, b, cb) != Crashes
    ensures FactorHit(f, b, cb) == Fires
  {
    if f.when.CandidateAbove? {
      var x :| x in Items(a.value, "candidates") && Score(x) >= f.when.floor;
      var y :| y in Items(b.value, "candidates") && Score(y) >= Score(x);
    }
  }

  lemma {:induction false} SumIsMonotone(factors: seq<Factor>, a: Option<J.Json>, ca: map<string, J.Json>,
                                          b: Option<J.Json>, cb: map<string, J.Json>)
    requires AtLeast(b, a) && FlagsKept(cb, ca)
    requires a.Some? ==> !Malformed(a.value)
    requires b.Some? ==> !Malformed(b.value)
    requires forall f :: f in factors ==> f.weight >= 0.0
    requires FiredFactors(factors, a, ca).Some? && FiredFactors(factors, b, cb).Some?
    ensures 0.0 <= Sum(FiredFactors(factors, a, ca).value) <= Sum(FiredFactors(factors, b, cb).value)
  {
    hide Malformed, Evaluate;
    if factors != [] {
      var f := factors[|factors| - 1];
      assert f in factors;
      SumIsMonotone(factors[..|factors| - 1], a, ca, b, cb);
      if FactorHit(f, a, ca) == Fires {
        HitIsMonotone(f, a, ca, b, cb);
      }
      SumOfOneMore(FiredFactors(factors[..|factors| - 1], a, ca).value, Fired(f.id, f.weight));
      SumOfOneMore(FiredFactors(factors[..|factors| - 1], b, cb).value, Fired(f.id, f.weight));
    }
  }

  lemma SumOfOneMore(fired: seq<Fired>, x: Fired)
    ensures Sum(fired + [x]) == Sum(fired) + x.weight
  {
    assert (fired + [x])[..|fired|] == fired;
  }

  lemma RoundIsMonotone(x: real, y: real)
    requires x <= y
    ensures Round6(x) <= Round6(y)
    ensures 0.0 <= x ==> 0.0 <= Round6(x)
  {
    var m, n := x * 1000000.0, y * 1000000.0;
    if m.Floor < n.Floor {
      assert NearestMicro(m) <= m.Floor + 1 <= n.Floor <= NearestMicro(n);
    }
  }

  /** Making a screen more alarming, or raising a flag on the case, never lowers the score or the band. */
  lemma GateIsMonotone(p: Policy, a: Option<J.Json>, ca: map<string, J.Json>, b: Option<J.Json>,
                       cb: map<string, J.Json>)
    requires Loaded(p) && AtLeast(b, a) && FlagsKept(cb, ca)
    requires Assess(p, a, ca).Scored? && Assess(p, b, cb).Scored?
    ensures var va, vb := Assess(p, a, ca).verdict, Assess(p, b, cb).verdict;
            0.0 <= va.score <= vb.score <= 1.0 && Severity(va.band) <= Severity(vb.band)
  {
    hide Malformed, Round6, Sum;
    if b.Some? && Malformed(b.value) {
      ScoreInRange(p, a, ca);
    } else {
      SumIsMonotone(p.factors, a, ca, b, cb);
      RoundIsMonotone(Sum(FiredFactors(p.factors, a, ca).value), Sum(FiredFactors(p.factors, b, cb).value));
    }
  }

  lemma ScoreInRange(p: Policy, s: Option<J.Json>, c: map<string, J.Json>)
    requires Loaded(p) && Assess(p, s, c).Scored?
    ensures 0.0 <= Assess(p, s, c).verdict.score <= 1.0
    ensures Assess(p, s, c).verdict.score >= p.block <==> Assess(p, s, c).verdict.band == Blocked
  {
    hide Malformed, Round6, Sum;
    if !(s.Some? && Malformed(s.value)) {
      SumIsMonotone(p.factors, s, c, s, c);
      RoundIsMonotone(Sum(FiredFactors(p.factors, s, c).value), Sum(FiredFactors(p.factors, s, c).value));
    }
  }

  /** The order above covers adding candidates and flags anywhere and raising any score: it is enough that
      the old lists survive inside the new ones with scores at least as high. */
  lemma GrowingAScreenIsAtLeast(a: J.Json, b: J.Json, place: seq<nat>)
    requires !Malformed(a) && !Malformed(b) && a.Get("reachable") == b.Get("reachable")
    requires forall f :: f in Items(a, "flagged") ==> f in Items(b, "flagged")
    requires |place| == |Items(a, "candidates")|
    requires forall i :: 0 <= i < |place| ==>
               place[i] < |Items(b, "candidates")|
               && Score(Items(b, "candidates")[place[i]]) >= Score(Items(a, "candidates")[i])
    ensures AtLeast(Some(b), Some(a))
  {
    hide Malformed, Score;
    if Items(a, "flagged") != [] {
      assert Items(a, "flagged")[0] in Items(b, "flagged");
    }
    forall x | x in Items(a, "candidates")
      ensures exists y :: y in Items(b, "candidates") && Score(y) >= Score(x)
    {
      var i :| 0 <= i < |place| && Items(a, "candidates")[i] == x;
      assert Items(b, "candidates")[place[i]] in Items(b, "candidates");
    }
  }
}
