/** Committing a human decision: once per case version, against the state the person deciding saw
    (app/state/approvals.py, console/review.py). */
module Approvals {

  import opened Basics
  import opened Store
  import Inbox
  import Text

  datatype Reason = Accepted | InvalidDecision | UnknownCase | DuplicateApproval | NotAwaiting | StaleApproval

  datatype Result = Result(committed: bool, version: nat, reason: Reason)

  /** One attempt. `decision` is None when the submitted word is neither decision. */
  datatype Attempt = Attempt(id: string, expected: int, decision: Option<Choice>, actor: string)

  function Outcome(c: Option<Case>, a: Attempt): Result {
    var current := if c.Some? then c.value.version else 0;
    if a.decision.None? then Result(false, current, InvalidDecision)
    else if c.None? then Result(false, current, UnknownCase)
    else if a.id in c.value.approvals then Result(false, current, DuplicateApproval)
    else if c.value.phase != AwaitingApproval then Result(false, current, NotAwaiting)
    else if a.expected != current then Result(false, current, StaleApproval)
    else Result(true, current, Accepted)
  }

  function Record(c: Case, a: Attempt): Approval
    requires a.decision.Some?
  {
    Approval(a.id, a.decision.value, a.actor, c.version)
  }

  /** The case after the attempt; a refusal leaves it untouched. */
  function Decided(c: Option<Case>, a: Attempt): Option<Case> {
    if !Outcome(c, a).committed then c
    else
      var record := Record(c.value, a);
      Some(c.value.(approvals := c.value.approvals[a.id := record], approval := Some(record)))
  }

  method TryCommit(db: Firestore, caseId: string, a: Attempt) returns (r: Result)
    modifies db
    ensures r == Outcome(Inbox.Find(old(db.cases), caseId), a)
    ensures db.cases == Inbox.Put(old(db.cases), caseId, Decided(Inbox.Find(old(db.cases), caseId), a))
  {
    assert caseId in db.cases ==> db.cases == db.cases[caseId := db.cases[caseId]];
    var current := if caseId in db.cases then db.cases[caseId].version else 0;
    if a.decision.None? { return Result(false, current, InvalidDecision); }
    if caseId !in db.cases { return Result(false, current, UnknownCase); }
    var c := db.cases[caseId];
    if a.id in c.approvals { return Result(false, current, DuplicateApproval); }
    if c.phase != AwaitingApproval { return Result(false, current, NotAwaiting); }
    if a.expected != current { return Result(false, current, StaleApproval); }
    var record := Approval(a.id, a.decision.value, a.actor, current);
    db.cases := db.cases[caseId := c.(approvals := c.approvals[a.id := record], approval := Some(record))];
    r := Result(true, current, Accepted);
  }

  const ABORT_ATTEMPTS := 5

  /** The first of the five tries that the database does not abort. */
  function FirstServed(aborted: seq<bool>, i: nat): (k: nat)
    requires i <= ABORT_ATTEMPTS <= |aborted|
    ensures i <= k <= ABORT_ATTEMPTS
    ensures forall j :: i <= j < k ==> aborted[j]
    ensures k < ABORT_ATTEMPTS ==> !aborted[k]
    decreases ABORT_ATTEMPTS - i
  {
    if i == ABORT_ATTEMPTS || !aborted[i] then i else FirstServed(aborted, i + 1)
  }

  /** The commit behind its retry. `seen[i]` is what other writers have made of the database by the time of
      the i-th try and `aborted[i]` whether that try is aborted; None is the abort reaching the caller. Every
      try decides afresh on what it reads, and an aborted try writes nothing. */
  method CommitApproval(db: Firestore, caseId: string, a: Attempt, seen: seq<map<string, Case>>, aborted: seq<bool>)
    returns (r: Option<Result>)
    requires |seen| == 5 == |aborted|
    modifies db
    ensures var k := FirstServed(aborted, 0);
            if k == 5 then r.None? && db.cases == seen[4]
            else r == Some(Outcome(Inbox.Find(seen[k], caseId), a))
                 && db.cases == Inbox.Put(seen[k], caseId, Decided(Inbox.Find(seen[k], caseId), a))
  {
    for i := 0 to ABORT_ATTEMPTS
      invariant FirstServed(aborted, 0) == FirstServed(aborted, i)
      invariant i > 0 ==> db.cases == seen[i - 1]
    {
      db.cases := seen[i];
      if !aborted[i] {
        var done := TryCommit(db, caseId, a);
        return Some(done);
      }
    }
    r := None;
  }

  /* ---- linearity ---- */

  /** The console derives the approval id from the version it shows. */
  function DerivedId(caseId: string, version: int): string {
    caseId + ":v" + Text.Decimal(version)
  }

  lemma DerivedIdIsInjective(caseId: string, v: int, w: int)
    requires DerivedId(caseId, v) == DerivedId(caseId, w)
    ensures v == w
  {
    var p := caseId + ":v";
    assert Text.Decimal(v) == (p + Text.Decimal(v))[|p|..];
    assert Text.Decimal(w) == (p + Text.Decimal(w))[|p|..];
    Text.DecimalIsInjective(v, w);
  }

  /** What can happen to a case between and around decisions: attempts from the console, attempts the database
      aborts, claims of further events, and outcomes recorded by the graph. */
  datatype Step =
    | Decide(expected: int, decision: Option<Choice>, actor: string)
    | Aborted
    | Claim(d: Inbox.Delivery)
    | Recorded(phase: Phase, policy: PolicyBlock)

  function AttemptOf(caseId: string, s: Step): Attempt
    requires s.Decide?
  {
    Attempt(DerivedId(caseId, s.expected), s.expected, s.decision, s.actor)
  }

  function Next(caseId: string, c: Option<Case>, s: Step): Option<Case> {
    match s
    case Decide(_, _, _) => Decided(c, AttemptOf(caseId, s))
    case Aborted => c
    case Claim(d) => Inbox.Claimed(c, d)
    case Recorded(phase, policy) =>
      if c.Some? then Some(c.value.(phase := phase, policy := if policy.NoPolicy? then c.value.policy else policy))
        else c
  }

  function Run(caseId: string, steps: seq<Step>): Option<Case> {
    if steps == [] then None else Next(caseId, Run(caseId, steps[..|steps| - 1]), steps[|steps| - 1])
  }

  /** The i-th step of a run is a decision that commits. */
  ghost predicate Commits(caseId: string, steps: seq<Step>, i: nat) {
    i < |steps| && steps[i].Decide? && Outcome(Run(caseId, steps[..i]), AttemptOf(caseId, steps[i])).committed
  }

  /** The case's approval block is the newest record, and records sit under their own derived ids. */
  ghost predicate Kept(caseId: string, c: Case) {
    (forall id :: id in c.approvals ==>
       c.approvals[id].id == id && id == DerivedId(caseId, c.approvals[id].version)
         && c.approvals[id].version <= c.version)
    && (c.approval.None? <==> c.approvals == map[])
    && (c.approval.Some? ==>
          c.approval.value.id in c.approvals && c.approvals[c.approval.value.id] == c.approval.value
          && forall id :: id in c.approvals ==> c.approvals[id].version <= c.approval.value.version)
  }

  lemma StepKeeps(caseId: string, c: Option<Case>, s: Step)
    requires c.Some? ==> Kept(caseId, c.value)
    ensures Next(caseId, c, s).Some? ==> Kept(caseId, Next(caseId, c, s).value)
    ensures c.Some? ==> Next(caseId, c, s).Some? && c.value.version <= Next(caseId, c, s).value.version
                        && c.value.approvals.Keys <= Next(caseId, c, s).value.approvals.Keys
  {
    hide DerivedId;
  }

  lemma {:induction false} RunKeeps(caseId: string, steps: seq<Step>)
    ensures Run(caseId, steps).Some? ==> Kept(caseId, Run(caseId, steps).value)
  {
    hide Kept, Next;
    if steps != [] {
      RunKeeps(caseId, steps[..|steps| - 1]);
      StepKeeps(caseId, Run(caseId, steps[..|steps| - 1]), steps[|steps| - 1]);
    }
  }

  lemma {:induction false} CommitLasts(caseId: string, steps: seq<Step>, i: nat, j: nat)
    requires i < j <= |steps| && Commits(caseId, steps, i)
    ensures var v := Run(caseId, steps[..i]).value.version;
            Run(caseId, steps[..j]).Some? && v <= Run(caseId, steps[..j]).value.version
            && DerivedId(caseId, v) in Run(caseId, steps[..j]).value.approvals
    decreases j
  {
    hide DerivedId;
    assert steps[..j][..j - 1] == steps[..j - 1];
    if j > i + 1 {
      CommitLasts(caseId, steps, i, j - 1);
      RunKeeps(caseId, steps[..j - 1]);
      StepKeeps(caseId, Run(caseId, steps[..j - 1]), steps[j - 1]);
    }
  }

  /** At most one decision commits per version: every valid attempt at the version of an earlier commit, in
      whatever order attempts, aborts, events and outcomes were serialised, is refused as a duplicate. */
  lemma OneDecisionPerVersion(caseId: string, steps: seq<Step>, i: nat, j: nat)
    requires i < j < |steps| && Commits(caseId, steps, i)
    requires steps[j].Decide? && steps[j].decision.Some? && steps[j].expected == steps[i].expected
    ensures Outcome(Run(caseId, steps[..j]), AttemptOf(caseId, steps[j])).reason == DuplicateApproval
  {
    CommitLasts(caseId, steps, i, j);
  }

  /** Committed versions strictly increase along every run. */
  lemma CommittedVersionsIncrease(caseId: string, steps: seq<Step>, i: nat, j: nat)
    requires i < j && Commits(caseId, steps, i) && Commits(caseId, steps, j)
    ensures steps[i].expected < steps[j].expected
  {
    hide Run, DerivedId;
    CommitLasts(caseId, steps, i, j);
    CommitsAtItsVersion(caseId, steps, i);
    CommitsAtItsVersion(caseId, steps, j);
  }

  /** A decision commits at the version it names, under an id not used before. */
  lemma CommitsAtItsVersion(caseId: string, steps: seq<Step>, i: nat)
    requires Commits(caseId, steps, i)
    ensures var c := Run(caseId, steps[..i]);
            c.Some? && steps[i].Decide? && steps[i].expected == c.value.version
            && DerivedId(caseId, steps[i].expected) !in c.value.approvals
  {
    hide Run, DerivedId;
  }

  /** Concurrent attempts at one version of a parked case: whatever aborts hit them, the first one served
      commits and every later one is a duplicate. */
  lemma {:induction false} RacingAttempts(caseId: string, c: Case, race: seq<Step>)
    requires c.phase == AwaitingApproval && DerivedId(caseId, c.version) !in c.approvals
    requires forall s :: s in race ==> s.Aborted? || (s.Decide? && s.expected == c.version && s.decision.Some?)
    ensures var winners := Winners(caseId, Some(c), race);
            winners == if Decisions(race) == 0 then 0 else 1
  {
    if race != [] {
      assert race[0] in race;
      if race[0].Aborted? {
        RacingAttempts(caseId, c, race[1..]);
      } else {
        LosersAfterTheWinner(caseId, Decided(Some(c), AttemptOf(caseId, race[0])).value, c.version, race[1..]);
      }
    }
  }

  function Decisions(race: seq<Step>): nat {
    if race == [] then 0 else (if race[0].Decide? then 1 else 0) + Decisions(race[1..])
  }

  /** How many attempts of a race commit. */
  function Winners(caseId: string, c: Option<Case>, race: seq<Step>): nat
    decreases |race|
  {
    if race == [] then 0
    else (if race[0].Decide? && Outcome(c, AttemptOf(caseId, race[0])).committed then 1 else 0)
         + Winners(caseId, Next(caseId, c, race[0]), race[1..])
  }

  lemma {:induction false} LosersAfterTheWinner(caseId: string, c: Case, version: int, race: seq<Step>)
    requires DerivedId(caseId, version) in c.approvals
    requires forall s :: s in race ==> s.Aborted? || (s.Decide? && s.expected == version && s.decision.Some?)
    ensures Winners(caseId, Some(c), race) == 0
  {
    if race != [] {
      assert race[0] in race;
      LosersAfterTheWinner(caseId, c, version, race[1..]);
    }
  }

  /** A commit changes neither phase, version nor the gate's verdict, so a repeat is told apart only by its id. */
  lemma CommitLeavesTheGateAlone(c: Case, a: Attempt)
    requires Outcome(Some(c), a).committed
    ensures var d := Decided(Some(c), a).value;
            d.phase == c.phase && d.version == c.version && d.policy == c.policy
            && d.outbox == c.outbox && d.inbox == c.inbox
            && Outcome(Some(d), a).reason == DuplicateApproval
            && Outcome(Some(d), a.(id := a.id + "'")).committed == (a.id + "'" !in c.approvals)
  {
    assert |a.id + "'"| != |a.id|;
  }

  /* ---- decisions and the events they answer ---- */

  /** A new event takes the case back from whoever was about to decide on it: until it has been judged and the case
      parked again, no attempt commits, at whatever version and under whatever id. */
  lemma FreshEventsUnpark(c: Option<Case>, d: Inbox.Delivery, a: Attempt)
    requires Inbox.Outcome(c, d).claimed && Inbox.Outcome(c, d).reason == Inbox.Initial
    ensures !Outcome(Inbox.Claimed(c, d), a).committed
    ensures a.decision.Some? && a.id !in (if c.Some? then c.value.approvals else map[]) ==>
              Outcome(Inbox.Claimed(c, d), a).reason == NotAwaiting
  {
  }

  /** What an attempt answers, by what holds of the case: the first of these that applies. */
  lemma AnswersInOrder(c: Option<Case>, a: Attempt)
    ensures var r := Outcome(c, a);
            (r.committed <==>
               c.Some? && a.decision.Some? && a.id !in c.value.approvals && c.value.phase == AwaitingApproval
               && a.expected == c.value.version)
            && (r.committed <==> r.reason == Accepted)
            && (r.reason == InvalidDecision <==> a.decision.None?)
            && (r.reason == UnknownCase <==> a.decision.Some? && c.None?)
            && (r.reason == DuplicateApproval <==> a.decision.Some? && c.Some? && a.id in c.value.approvals)
            && (r.reason == StaleApproval <==>
                  a.decision.Some? && c.Some? && a.id !in c.value.approvals && c.value.phase == AwaitingApproval
                  && a.expected != c.value.version)
            && r.version == if c.Some? then c.value.version else 0
  {
  }

  /** A committed decision is on record as it was made: this word, by this person, on the version the case was at. */
  lemma DecisionsAreOnRecord(c: Case, a: Attempt)
    requires Outcome(Some(c), a).committed
    ensures var d := Decided(Some(c), a).value;
            d.approval.Some? && d.approval.value.id == a.id && Some(d.approval.value.decision) == a.decision
            && d.approval.value.actor == a.actor && d.approval.value.version == c.version == a.expected
            && d.approvals == c.approvals[a.id := d.approval.value]
  {
  }
}
