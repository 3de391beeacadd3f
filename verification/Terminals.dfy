/** The writes of a graph run, one document at a time, and what running an event again does to a case
    (app/nodes.py, terminals and `_claim_lifecycle_commands`). */
module Terminals {

  import opened Basics
  import opened Store
  import opened Graph
  import C = Commands
  import F = Fleet
  import G = Grounding
  import I = Injection
  import L = Lifecycle
  import R = Risk
  import S = GraphSafety

  /* ---- writes ---- */

  /** The atomic writes of a terminal, in the order it makes them. */
  datatype Write =
    | ClaimWrite(key: Key, supplier: string)
    | LifecycleWrite(state: L.State, cycle: int, certificate: Option<L.Certificate>, refused: seq<Key>)
    | OutcomeWrite(phase: Phase, policy: Option<R.Verdict>)

  function Apply(c: Case, w: Write): Case {
    match w
    case ClaimWrite(k, s) => c.(outbox := C.Claimed(c.outbox, k, s))
    case LifecycleWrite(state, cycle, certificate, refused) =>
      c.(state := state, cycle := cycle, certificate := if certificate.Some? then certificate else c.certificate,
         refused := if refused != [] then refused else c.refused)
    case OutcomeWrite(phase, policy) =>
      c.(phase := phase, policy := if policy.Some? then Stored(policy.value) else c.policy)
  }

  function ApplyAll(c: Case, ws: seq<Write>): Case {
    if ws == [] then c else Apply(ApplyAll(c, ws[..|ws| - 1]), ws[|ws| - 1])
  }

  /** The commands the event's department may originate; None refuses all of them. */
  function CommandScope(catalog: Option<F.Catalog>, department: string): Option<seq<L.Action>> {
    var resolved := F.ResolveDepartment(catalog, department);
    if resolved.None? || catalog.None? || resolved.value !in catalog.value.departments then None
    else Some(catalog.value.departments[resolved.value].permittedCommands)
  }

  predicate InScope(scope: Option<seq<L.Action>>, a: L.Action) { scope.Some? && a in scope.value }

  function ClaimWrites(cs: seq<L.Command>, cycle: int, scope: Option<seq<L.Action>>): seq<Write> {
    if cs == [] then []
    else
      var last := cs[|cs| - 1];
      ClaimWrites(cs[..|cs| - 1], cycle, scope)
      + if InScope(scope, last.action) then [ClaimWrite(Key(last.action, cycle), last.supplier)] else []
  }

  /** The commands the department may not originate; they leave no row, only this record. */
  function RefusedKeys(cs: seq<L.Command>, cycle: int, scope: Option<seq<L.Action>>): seq<Key> {
    if cs == [] then []
    else
      var last := cs[|cs| - 1];
      RefusedKeys(cs[..|cs| - 1], cycle, scope) + if InScope(scope, last.action) then [] else [Key(last.action, cycle)]
  }

  function LifecycleOutcome(d: L.Decision, scope: Option<seq<L.Action>>): Write {
    LifecycleWrite(d.state, d.cycle, d.certificate, RefusedKeys(d.commands, d.cycle, scope))
  }

  /** The claim step shared by the two terminals that claim: every permitted command, then the lifecycle block. */
  function ClaimStep(d: L.Decision, scope: Option<seq<L.Action>>): seq<Write> {
    ClaimWrites(d.commands, d.cycle, scope) + [LifecycleOutcome(d, scope)]
  }

  function OutcomePhase(end: Node, claimed: bool): Phase
    requires Terminal(end)
  {
    if end.QuarantineCase? then Quarantined
    else if end.ParkCase? then AwaitingApproval
    else if claimed then Committed
    else NoAction
  }

  /** The run reaches a terminal that claims. */
  predicate Claims(run: Run)
    requires |run.trace| > 0
  {
    End(run).CommitCommands? || End(run).ParkCase?
  }

  /** The engine reports an error: a node or the deciding step raised, or the workflow library did. */
  predicate Raises(e: Event, env: Environment, run: Run)
    requires |run.trace| > 0
  {
    run.fate.Raised? || (run.fate.Stranded? && env.strandedFails) || (Claims(run) && S.DecisionOf(e, env, run).Raised?)
  }

  /** The writes of a run: none unless it reaches a terminal and its deciding step returns. */
  function Writes(e: Event, env: Environment, run: Run): seq<Write>
    requires |run.trace| > 0
  {
    if End(run).QuarantineCase? then [OutcomeWrite(Quarantined, run.ctx.policy)]
    else if !Claims(run) || Raises(e, env, run) then []
    else
      var d := S.DecisionOf(e, env, run).decision;
      var scope := CommandScope(env.catalog, e.department);
      ClaimStep(d, scope) + [OutcomeWrite(OutcomePhase(End(run), ClaimWrites(d.commands, d.cycle, scope) != []),
        run.ctx.policy)]
  }

  /** The writes that happen when the process dies after so many of them; None is a process that lives. */
  function Cut(ws: seq<Write>, after: Option<nat>): seq<Write> {
    if after.Some? && after.value < |ws| then ws[..after.value] else ws
  }

  /** Claims every permitted command in order, then stores the lifecycle block. The process makes at most `lives`
      writes; `alive` says whether it got through, and `left` how many it could still make. */
  method ClaimLifecycleCommands(db: Firestore, caseId: string, d: L.Decision, scope: Option<seq<L.Action>>,
                                lives: Option<nat>)
    returns (alive: bool, claimed: bool, left: Option<nat>)
    requires caseId in db.cases
    modifies db
    ensures db.cases == old(db.cases)[caseId := ApplyAll(old(db.cases[caseId]), Cut(ClaimStep(d, scope), lives))]
    ensures alive == (lives.None? || |ClaimStep(d, scope)| <= lives.value)
    ensures alive ==> claimed == (ClaimWrites(d.commands, d.cycle, scope) != [])
                      && left == if lives.None? then None else Some(lives.value - |ClaimStep(d, scope)|)
  {
    hide C.Claimed, ApplyAll, ClaimWrites, RefusedKeys;
    alive, claimed, left := true, false, lives;
    var refused: seq<Key> := [];
    ghost var start := db.cases[caseId];
    ghost var done: seq<Write> := [];
    ghost var all := ClaimStep(d, scope);
    assert db.cases == db.cases[caseId := start];
    NothingApplied(start, d.cycle, scope);
    for i := 0 to |d.commands|
      invariant caseId in db.cases && alive
      invariant done == ClaimWrites(d.commands[..i], d.cycle, scope) && claimed == (done != [])
      invariant refused == RefusedKeys(d.commands[..i], d.cycle, scope)
      invariant left.Some? == lives.Some? && (left.Some? ==> left.value + |done| == lives.value)
      invariant db.cases == old(db.cases)[caseId := ApplyAll(start, done)]
    {
      var command := d.commands[i];
      OneMoreClaim(d.commands, i, d.cycle, scope);
      var k := Key(command.action, d.cycle);
      if scope.Some? && command.action in scope.value {
        if left == Some(0) {
          ClaimsFrom(d.commands, i, d.cycle, scope);
          assert all[..|done|] == done;
          alive := false;
          return;
        }
        var _ := C.ClaimCommand(db, caseId, k, command.supplier);
        claimed := true;
        left := if left.Some? then Some(left.value - 1) else None;
        OneMoreWrite(start, done, ClaimWrite(k, command.supplier));
        done := done + [ClaimWrite(k, command.supplier)];
      } else {
        refused := refused + [k];
      }
    }
    assert d.commands[..|d.commands|] == d.commands;
    if left == Some(0) {
      assert all[..|done|] == done;
      alive := false;
      return;
    }
    OneMoreWrite(start, done, LifecycleOutcome(d, scope));
    left := if left.Some? then Some(left.value - 1) else None;
    var c := db.cases[caseId];
    db.cases := db.cases[caseId := c.(state := d.state, cycle := d.cycle,
                                     certificate := if d.certificate.Some? then d.certificate else c.certificate,
                                     refused := if refused != [] then refused else c.refused)];
  }

  lemma NothingApplied(c: Case, cycle: int, scope: Option<seq<L.Action>>)
    ensures ApplyAll(c, []) == c && ClaimWrites([], cycle, scope) == [] && RefusedKeys([], cycle, scope) == []
  {
  }

  lemma OneMoreWrite(c: Case, ws: seq<Write>, w: Write)
    ensures ApplyAll(c, ws + [w]) == Apply(ApplyAll(c, ws), w)
  {
    assert (ws + [w])[..|ws|] == ws;
  }

  lemma OneMoreClaim(cs: seq<L.Command>, i: nat, cycle: int, scope: Option<seq<L.Action>>)
    requires i < |cs|
    ensures ClaimWrites(cs[..i + 1], cycle, scope) == ClaimWrites(cs[..i], cycle, scope)
              + if InScope(scope, cs[i].action) then [ClaimWrite(Key(cs[i].action, cycle), cs[i].supplier)] else []
    ensures RefusedKeys(cs[..i + 1], cycle, scope) == RefusedKeys(cs[..i], cycle, scope)
              + if InScope(scope, cs[i].action) then [] else [Key(cs[i].action, cycle)]
  {
    assert cs[..i + 1][..i] == cs[..i];
  }

  /** What the first commands claim is where the claims of all of them begin. */
  lemma {:induction false} ClaimsFrom(cs: seq<L.Command>, i: nat, cycle: int, scope: Option<seq<L.Action>>)
    requires i <= |cs|
    ensures ClaimWrites(cs[..i], cycle, scope) <= ClaimWrites(cs, cycle, scope)
    decreases |cs|
  {
    if i < |cs| {
      ClaimsFrom(cs[..|cs| - 1], i, cycle, scope);
      assert cs[..|cs| - 1][..i] == cs[..i];
    } else {
      assert cs[..i] == cs;
    }
  }

  method RecordOutcome(db: Firestore, caseId: string, phase: Phase, policy: Option<R.Verdict>)
    requires caseId in db.cases
    modifies db
    ensures db.cases == old(db.cases)[caseId := Apply(old(db.cases[caseId]), OutcomeWrite(phase, policy))]
  {
    var c := db.cases[caseId];
    c := c.(phase := phase);
    if policy.Some? {
      c := c.(policy := Stored(policy.value));
    }
    db.cases := db.cases[caseId := c];
  }

  /** Runs the graph on the stored case and performs its terminal's writes, as many as the process lives to make.
      False is an error: the run's own, a death on the way, or, with all writes made, a lost response. */
  method InvokeEngine(db: Firestore, caseId: string, e: Event, env: Environment, ans: Answers,
                      lives: Option<nat>) returns (ok: bool)
    requires caseId in db.cases
    modifies db
    ensures var run := RunGraph(e, env, ans, old(db.cases[caseId]));
            db.cases == old(db.cases)[caseId := ApplyAll(old(db.cases[caseId]), Cut(Writes(e, env, run), lives))]
            && ok == (lives.None? && !Raises(e, env, run))
  {
    hide RunFrom, Visit, S.DecisionOf, C.Claimed, ClaimStep, CommandScope;
    var c := db.cases[caseId];
    var run := RunGraph(e, env, ans, c);
    RunsVisit(e, env, ans, c);
    var end := run.trace[|run.trace| - 1];
    assert db.cases == db.cases[caseId := c] && ApplyAll(c, []) == c;
    if !Terminal(end) {
      return lives.None? && run.fate.Stranded? && !env.strandedFails;
    }
    if end.QuarantineCase? {
      if lives == Some(0) { return false; }
      RecordOutcome(db, caseId, Quarantined, run.ctx.policy);
      assert [OutcomeWrite(Quarantined, run.ctx.policy)][..0] == [];
      return lives.None?;
    }
    var decision := S.DecisionOf(e, env, run);
    if decision.Raised? {
      return false;
    }
    var claiming := Conclude(db, caseId, decision.decision, CommandScope(env.catalog, e.department), end,
      run.ctx.policy, lives);
    ok := claiming && lives.None?;
  }

  /** What the two claiming terminals do: claim, then record the outcome. */
  method Conclude(db: Firestore, caseId: string, d: L.Decision, scope: Option<seq<L.Action>>, end: Node,
                  policy: Option<R.Verdict>, lives: Option<nat>)
    returns (alive: bool)
    requires caseId in db.cases && (end.CommitCommands? || end.ParkCase?)
    modifies db
    ensures var claimed := ClaimWrites(d.commands, d.cycle, scope) != [];
            var ws := ClaimStep(d, scope) + [OutcomeWrite(OutcomePhase(end, claimed), policy)];
            db.cases == old(db.cases)[caseId := ApplyAll(old(db.cases[caseId]), Cut(ws, lives))]
            && alive == (lives.None? || |ws| <= lives.value)
  {
    hide C.Claimed, ClaimWrites, RefusedKeys, ApplyAll;
    ghost var start := db.cases[caseId];
    ghost var steps := ClaimStep(d, scope);
    var claimed, left;
    alive, claimed, left := ClaimLifecycleCommands(db, caseId, d, scope, lives);
    if !alive || left == Some(0) {
      CutBefore(steps, OutcomeWrite(OutcomePhase(end, ClaimWrites(d.commands, d.cycle, scope) != []), policy), lives);
      return false;
    }
    var phase := if end.ParkCase? then AwaitingApproval else if claimed then Committed else NoAction;
    RecordOutcome(db, caseId, phase, policy);
    OneMoreWrite(start, steps, OutcomeWrite(phase, policy));
  }

  lemma CutBefore(ws: seq<Write>, w: Write, lives: Option<nat>)
    requires lives.Some? && lives.value <= |ws|
    ensures Cut(ws + [w], lives) == Cut(ws, lives)
  {
  }

  lemma RunsVisit(e: Event, env: Environment, ans: Answers, c: Case)
    ensures var run := RunGraph(e, env, ans, c);
            |run.trace| > 0 && (run.fate.Finished? <==> Terminal(End(run)))
  {
  }

  /* ---- what writes keep ---- */

  function ClaimedKeys(ws: seq<Write>): set<Key> {
    set w | w in ws && w.ClaimWrite? :: w.key
  }

  lemma {:induction false} WritesExtendTheOutbox(c: Case, ws: seq<Write>)
    ensures ApplyAll(c, ws).outbox.Keys == c.outbox.Keys + ClaimedKeys(ws)
    ensures forall k :: k in c.outbox && C.Settled(c.outbox[k].status) ==>
              k in ApplyAll(c, ws).outbox && ApplyAll(c, ws).outbox[k] == c.outbox[k]
    ensures ApplyAll(c, ws).version == c.version && ApplyAll(c, ws).inbox == c.inbox
            && ApplyAll(c, ws).approvals == c.approvals && ApplyAll(c, ws).approval == c.approval
            && ApplyAll(c, ws).supplier == c.supplier
  {
    if ws != [] {
      var init, last := ws[..|ws| - 1], ws[|ws| - 1];
      WritesExtendTheOutbox(c, init);
      assert forall w :: w in ws <==> w in init || w == last;
      assert ClaimedKeys(ws) == ClaimedKeys(init) + if last.ClaimWrite? then {last.key} else {};
    } else {
      assert ClaimedKeys(ws) == {};
    }
  }

  predicate OnlyClaims(ws: seq<Write>) { forall w :: w in ws ==> w.ClaimWrite? }

  lemma {:induction false} ClaimsTouchOnlyTheOutbox(c: Case, ws: seq<Write>)
    requires OnlyClaims(ws)
    ensures ApplyAll(c, ws) == c.(outbox := ApplyAll(c, ws).outbox)
  {
    if ws != [] {
      ClaimsTouchOnlyTheOutbox(c, ws[..|ws| - 1]);
      assert ws[|ws| - 1] in ws;
    }
  }

  /** Every command of a decision is either claimed or recorded as refused, as its department's scope says. */
  lemma {:induction false} ClaimWritesClaim(cs: seq<L.Command>, cycle: int, scope: Option<seq<L.Action>>)
    ensures OnlyClaims(ClaimWrites(cs, cycle, scope))
    ensures forall k :: k in ClaimedKeys(ClaimWrites(cs, cycle, scope)) <==>
              k.cycle == cycle && InScope(scope, k.action) && exists c :: c in cs && c.action == k.action
    ensures forall k :: k in RefusedKeys(cs, cycle, scope) <==>
              k.cycle == cycle && !InScope(scope, k.action) && exists c :: c in cs && c.action == k.action
  {
    if cs != [] {
      var init, last := cs[..|cs| - 1], cs[|cs| - 1];
      ClaimWritesClaim(init, cycle, scope);
      assert forall c :: c in cs <==> c in init || c == last;
      var before, all := ClaimWrites(init, cycle, scope), ClaimWrites(cs, cycle, scope);
      assert forall w :: w in all <==>
          w in before || (InScope(scope, last.action) && w == ClaimWrite(Key(last.action, cycle), last.supplier));
      assert ClaimedKeys(all) ==
             ClaimedKeys(before) + if InScope(scope, last.action) then {Key(last.action, cycle)} else {};
    } else {
      assert ClaimedKeys(ClaimWrites(cs, cycle, scope)) == {};
    }
  }

  lemma {:induction false} ClaimSuppliers(cs: seq<L.Command>, cycle: int, scope: Option<seq<L.Action>>, s: string)
    requires forall c :: c in cs ==> c.supplier == s
    ensures forall w :: w in ClaimWrites(cs, cycle, scope) ==> w.ClaimWrite? && w.supplier == s
  {
    if cs != [] {
      assert cs[|cs| - 1] in cs;
      ClaimSuppliers(cs[..|cs| - 1], cycle, scope, s);
    }
  }

  lemma {:induction false} ApplyInTwo(c: Case, a: seq<Write>, b: seq<Write>)
    ensures ApplyAll(c, a + b) == ApplyAll(ApplyAll(c, a), b)
  {
    if b == [] {
      assert a + b == a;
    } else {
      assert (a + b)[..|a + b| - 1] == a + b[..|b| - 1];
      ApplyInTwo(c, a, b[..|b| - 1]);
    }
  }

  /** The whole effect of a claiming run. */
  lemma ClaimingRunEffect(c: Case, d: L.Decision, scope: Option<seq<L.Action>>, phase: Phase, policy: Option<R.Verdict>)
    ensures var claims := ClaimWrites(d.commands, d.cycle, scope);
            var c' := ApplyAll(c, ClaimStep(d, scope) + [OutcomeWrite(phase, policy)]);
            c'.state == d.state && c'.cycle == d.cycle
            && c'.certificate == (if d.certificate.Some? then d.certificate else c.certificate)
            && c'.policy == (if policy.Some? then Stored(policy.value) else c.policy) && c'.phase == phase
            && c'.outbox == ApplyAll(c, claims).outbox && c'.supplier == c.supplier
            && c'.outbox.Keys == c.outbox.Keys + ClaimedKeys(claims)
  {
    hide C.Claimed;
    var claims := ClaimWrites(d.commands, d.cycle, scope);
    var life := LifecycleOutcome(d, scope);
    ClaimWritesClaim(d.commands, d.cycle, scope);
    ClaimsTouchOnlyTheOutbox(c, claims);
    WritesExtendTheOutbox(c, claims);
    ApplyInTwo(c, claims + [life], [OutcomeWrite(phase, policy)]);
    ApplyInTwo(c, claims, [life]);
    assert [life][..0] == [] && [OutcomeWrite(phase, policy)][..0] == [];
  }

  /* ---- what a run leaves ---- */

  /** The department may originate the action. */
  predicate MayOriginate(env: Environment, e: Event, a: L.Action) {
    env.catalog.Some?
    && var department := if e.department != "" then Some(e.department) else env.catalog.value.legacyDepartment;
       department.Some? && department.value in env.catalog.value.departments
       && a in env.catalog.value.departments[department.value].permittedCommands
  }

  lemma ScopesExactly(env: Environment, e: Event, a: L.Action)
    ensures InScope(CommandScope(env.catalog, e.department), a) <==> MayOriginate(env, e, a)
  {
  }

  ghost predicate Lists(cs: seq<L.Command>, a: L.Action) { exists x :: x in cs && x.action == a }

  /** What claiming makes of one row: a new one is pending at its first attempt, an open one is pending at its next. */
  ghost predicate RowClaimed(row: Row, was: Option<Row>, supplier: string) {
    row == if was.None? then Row(Pending, 1, 0, supplier)
           else Row(Pending, was.value.attempts + 1, was.value.executionAttempts, supplier)
  }

  ghost function RowAt(outbox: map<Key, Row>, k: Key): Option<Row> { if k in outbox then Some(outbox[k]) else None }

  lemma ClaimedRow(outbox: map<Key, Row>, k: Key, supplier: string, j: Key)
    ensures var after := C.Claimed(outbox, k, supplier);
            if j == k && !(k in outbox && C.Settled(outbox[k].status))
            then k in after && RowClaimed(after[k], RowAt(outbox, k), supplier)
            else RowAt(after, j) == RowAt(outbox, j)
  {
  }

  /** Claiming a list of commands that names no action twice moves a row if and only if it is listed, within the scope,
      under the list's cycle, and still open; every other row is the one it was. */
  lemma {:induction false} ClaimingRowsExactly(c: Case, cs: seq<L.Command>, cycle: int, scope: Option<seq<L.Action>>,
                                               k: Key)
    requires forall i, j :: 0 <= i < j < |cs| ==> cs[i].action != cs[j].action
    ensures var after := ApplyAll(c, ClaimWrites(cs, cycle, scope)).outbox;
            if k.cycle == cycle && InScope(scope, k.action) && Lists(cs, k.action)
               && !(k in c.outbox && C.Settled(c.outbox[k].status))
            then k in after
                 && forall x :: x in cs && x.action == k.action ==> RowClaimed(after[k], RowAt(c.outbox, k), x.supplier)
            else RowAt(after, k) == RowAt(c.outbox, k)
  {
    hide C.Claimed, RowClaimed, InScope, C.Settled;
    if cs != [] {
      var init, last := cs[..|cs| - 1], cs[|cs| - 1];
      ClaimingRowsExactly(c, init, cycle, scope, k);
      assert forall x :: x in cs <==> x in init || x == last;
      assert last in cs && !Lists(init, last.action);
      assert Lists(cs, k.action) <==> Lists(init, k.action) || last.action == k.action;
      var before := ClaimWrites(init, cycle, scope);
      if InScope(scope, last.action) {
        OneMoreWrite(c, before, ClaimWrite(Key(last.action, cycle), last.supplier));
        ClaimedRow(ApplyAll(c, before).outbox, Key(last.action, cycle), last.supplier, k);
        assert k == Key(last.action, cycle) <==> k.action == last.action && k.cycle == cycle;
      } else {
        assert ClaimWrites(cs, cycle, scope) == before;
      }
    }
  }

  lemma DecisionsNameActionsOnce(s: L.CaseState, tick: L.Tick)
    requires L.Decision1(s, tick).Decided?
    ensures var cs := L.Decision1(s, tick).decision.commands;
            forall i, j :: 0 <= i < j < |cs| ==> cs[i].action != cs[j].action
  {
    hide L.ExpiryFromEvidence, L.StoredExpiry, L.NewCertificate, L.Unlistable;
  }

  /** What a run leaves of the case, in terms of its decision and its verdict: a run that does not decide leaves it as
      it was but for a quarantine's phase and verdict. One that does stores the decided lifecycle and the verdict; it
      queues exactly the decided commands its department may originate - a new row for each, or another attempt for one
      that is still open - and lists the others as refused; and its phase says whether it parked, queued anything, or
      did not. */
  lemma RunsLeave(e: Event, env: Environment, ans: Answers, c: Case, k: Key)
    ensures var run := RunGraph(e, env, ans, c);
            var after := ApplyAll(c, Writes(e, env, run));
            (!Decides(e, env, run) ==>
               LifecycleOf(after) == LifecycleOf(c) && after.outbox == c.outbox && after.refused == c.refused
               && after.phase == (if End(run).QuarantineCase? then Quarantined else c.phase)
               && after.policy ==
                    if End(run).QuarantineCase? && run.ctx.policy.Some? then Stored(run.ctx.policy.value) else c.policy)
            && (Decides(e, env, run) ==>
                  var d := S.DecisionOf(e, env, run).decision;
                  var claimed := k.cycle == d.cycle && MayOriginate(env, e, k.action)
                                 && Lists(d.commands, k.action);
                  LifecycleOf(after) == L.Stored(LifecycleOf(c), L.Decided(d))
                  && run.ctx.policy.Some? && after.policy == Stored(run.ctx.policy.value)
                  && (after.phase == AwaitingApproval <==> End(run).ParkCase?)
                  && (after.phase == Committed <==>
                        End(run).CommitCommands? && exists x :: x in d.commands && MayOriginate(env, e, x.action))
                  && (after.phase == NoAction <==>
                        End(run).CommitCommands? && forall x :: x in d.commands ==> !MayOriginate(env, e, x.action))
                  && (if claimed && !(k in c.outbox && C.Settled(c.outbox[k].status))
                      then k in after.outbox
                           && forall x :: x in d.commands && x.action == k.action ==>
                                RowClaimed(after.outbox[k], RowAt(c.outbox, k), x.supplier)
                      else RowAt(after.outbox, k) == RowAt(c.outbox, k))
                  && ((exists x :: x in d.commands && !MayOriginate(env, e, x.action)) ==>
                        (k in after.refused <==>
                           k.cycle == d.cycle && !MayOriginate(env, e, k.action)
                           && Lists(d.commands, k.action)))
                  && ((forall x :: x in d.commands ==> MayOriginate(env, e, x.action)) ==> after.refused == c.refused))
  {
    hide RunFrom, Visit, L.Decide, CommandScope, MayOriginate, InScope, C.Claimed, ClaimedKeys;
    var run := RunGraph(e, env, ans, c);
    RunsVisit(e, env, ans, c);
    S.TerminalsCarryTheirVerdict(e, env, ans, c);
    S.GraphIsSound(e, env, ans, c);
    if Decides(e, env, run) {
      var d := S.DecisionOf(e, env, run).decision;
      DecidingRunsLeave(e, env, run, c, d);
      ClaimingRowsExactly(c, d.commands, d.cycle, CommandScope(env.catalog, e.department), k);
    } else {
      var o := OutcomeWrite(Quarantined, run.ctx.policy);
      assert [o][..0] == [] && ApplyAll(c, [o]) == Apply(ApplyAll(c, []), o);
    }
  }

  lemma DecidingRunsLeave(e: Event, env: Environment, run: Run, c: Case, d: L.Decision)
    requires |run.trace| > 0 && run.fate.Finished? && Decides(e, env, run)
    requires run.ctx.policy.Some? && run.ctx.snapshot == c
    requires S.DecisionOf(e, env, run) == L.Decided(d)
    ensures var after := ApplyAll(c, Writes(e, env, run));
            var scope := CommandScope(env.catalog, e.department);
            var claims := ClaimWrites(d.commands, d.cycle, scope);
            LifecycleOf(after) == L.Stored(LifecycleOf(c), L.Decided(d))
            && after.policy == Stored(run.ctx.policy.value)
            && after.outbox == ApplyAll(c, claims).outbox
            && after.refused == (if RefusedKeys(d.commands, d.cycle, scope) != []
                                 then RefusedKeys(d.commands, d.cycle, scope) else c.refused)
            && after.phase == OutcomePhase(End(run), claims != [])
            && (claims != [] <==> exists x :: x in d.commands && InScope(scope, x.action))
            && (RefusedKeys(d.commands, d.cycle, scope) != [] <==>
                  exists x :: x in d.commands && !InScope(scope, x.action))
            && (forall o :: o in RefusedKeys(d.commands, d.cycle, scope) <==>
                  o.cycle == d.cycle && !InScope(scope, o.action)
                  && exists x :: x in d.commands && x.action == o.action)
            && (forall a :: InScope(scope, a) <==> MayOriginate(env, e, a))
            && (forall i, j :: 0 <= i < j < |d.commands| ==> d.commands[i].action != d.commands[j].action)
  {
    hide RunFrom, Visit, L.Decide, CommandScope, MayOriginate, InScope, C.Claimed, ApplyAll, ClaimWrites, RefusedKeys;
    var scope := CommandScope(env.catalog, e.department);
    var tick := L.Tick(S.LifecycleEvent(e), run.ctx.evidence, R.LifecycleTiming(env.policy));
    assert S.DecisionOf(e, env, run) == L.Decision1(LifecycleOf(c), tick);
    DecisionsNameActionsOnce(LifecycleOf(c), tick);
    var claims := ClaimWrites(d.commands, d.cycle, scope);
    ClaimingRunEffect(c, d, scope, OutcomePhase(End(run), claims != []), run.ctx.policy);
    RefusalsRecorded(c, d, scope, OutcomePhase(End(run), claims != []), run.ctx.policy);
    ClaimWritesClaim(d.commands, d.cycle, scope);
    SomethingClaimed(d.commands, d.cycle, scope);
    StoredIsDecided(LifecycleOf(c), d);
    forall a ensures InScope(scope, a) <==> MayOriginate(env, e, a) { ScopesExactly(env, e, a); }
  }

  lemma RefusalsRecorded(c: Case, d: L.Decision, scope: Option<seq<L.Action>>, phase: Phase, policy: Option<R.Verdict>)
    ensures var refused := RefusedKeys(d.commands, d.cycle, scope);
            ApplyAll(c, ClaimStep(d, scope) + [OutcomeWrite(phase, policy)]).refused ==
              if refused != [] then refused else c.refused
  {
    hide C.Claimed, ClaimWrites, RefusedKeys;
    var claims := ClaimWrites(d.commands, d.cycle, scope);
    ClaimWritesClaim(d.commands, d.cycle, scope);
    ClaimsTouchOnlyTheOutbox(c, claims);
    OneMoreWrite(c, claims, LifecycleOutcome(d, scope));
    OneMoreWrite(c, ClaimStep(d, scope), OutcomeWrite(phase, policy));
  }

  lemma {:induction false} SomethingClaimed(cs: seq<L.Command>, cycle: int, scope: Option<seq<L.Action>>)
    ensures ClaimWrites(cs, cycle, scope) != [] <==> exists x :: x in cs && InScope(scope, x.action)
    ensures RefusedKeys(cs, cycle, scope) != [] <==> exists x :: x in cs && !InScope(scope, x.action)
  {
    hide InScope;
    if cs != [] {
      var init, last := cs[..|cs| - 1], cs[|cs| - 1];
      SomethingClaimed(init, cycle, scope);
      assert last in cs && forall x :: x in cs <==> x in init || x == last;
    }
  }

  /* ---- running the same event again ---- */

  /** Two cases that agree on lifecycle, certificate and the set of commands. Phase, verdict, rows and numbering
      may differ. */
  ghost predicate SameLifecycle(a: Case, b: Case) {
    LifecycleOf(a) == LifecycleOf(b) && a.outbox.Keys == b.outbox.Keys
  }

  /** And on the verdict. */
  ghost predicate SameMission(a: Case, b: Case) { SameLifecycle(a, b) && a.policy == b.policy }

  /** A verdict carried over itself is itself. */
  lemma VerdictIsStable(env: Environment, ctx: Context, c: Case)
    requires !GateRaises(env, ctx)
    requires c.policy == ctx.snapshot.policy || c.policy == Stored(Verdict(env, ctx))
    ensures !GateRaises(env, ctx.(snapshot := c))
    ensures Verdict(env, ctx.(snapshot := c)) == Verdict(env, ctx)
  {
    hide R.AssessCase;
  }

  lemma VisitsIgnoreTheSnapshot(n: Node, e: Event, env: Environment, ans: Answers, ctx: Context, c: Case)
    requires !Terminal(n)
    requires n.AssessRisk? && !GateRaises(env, ctx) ==> Verdict(env, ctx.(snapshot := c)) == Verdict(env, ctx)
    ensures var (r, ctx') := Visit(n, e, env, ans, ctx);
            Visit(n, e, env, ans, ctx.(snapshot := c)) == (r, ctx'.(snapshot := c))
  {
    hide RouteOf, G.Validate, I.Tainted, ScreenJson, ReadScreen, R.AssessCase, Verdict;
  }

  /** A run depends on the stored case only through its policy block, and the block the run leaves behind
      leads through the same nodes to the same verdict. */
  lemma {:induction false} RunsRepeat(n: Node, e: Event, env: Environment, ans: Answers, ctx: Context, c: Case)
    requires ctx.policy.None? || Terminal(n)
    requires var run := RunFrom(n, e, env, ans, ctx);
             c.policy == ctx.snapshot.policy || c.policy == S.PolicyAfter(run, ctx.snapshot.policy)
    ensures var run := RunFrom(n, e, env, ans, ctx);
            RunFrom(n, e, env, ans, ctx.(snapshot := c)) == run.(ctx := run.ctx.(snapshot := c))
    decreases Rank(n, ctx.attempts)
  {
    hide Visit, Verdict;
    if !Terminal(n) {
      EveryRouteHasAnEdge(n, e, env, ans, ctx);
      EveryRouteHasAnEdge(n, e, env, ans, ctx.(snapshot := c));
      var (r, ctx') := Visit(n, e, env, ans, ctx);
      VisitsSetPolicyLast(n, e, env, ans, ctx);
      if n.AssessRisk? && !GateRaises(env, ctx) {
        VerdictIsStable(env, ctx, c);
      }
      VisitsIgnoreTheSnapshot(n, e, env, ans, ctx, c);
      if Edge(n, r).Some? {
        RunsRepeat(Edge(n, r).value, e, env, ans, ctx', c);
      }
    }
  }

  lemma VisitsSetPolicyLast(n: Node, e: Event, env: Environment, ans: Answers, ctx: Context)
    requires !Terminal(n) && ctx.policy.None?
    ensures var (r, ctx') := Visit(n, e, env, ans, ctx);
            ctx'.snapshot == ctx.snapshot
            && (Edge(n, r).Some? ==>
                  if n.AssessRisk? then Terminal(Edge(n, r).value) && !GateRaises(env, ctx)
                    && ctx'.policy == Some(Verdict(env, ctx))
                  else ctx'.policy.None?)
            && (!n.AssessRisk? && Edge(n, r).None? ==> r.Escaped?)
  {
    hide RouteOf, G.Validate, I.Tainted, ScreenJson, ReadScreen, R.AssessCase, Verdict;
    EveryRouteHasAnEdge(n, e, env, ans, ctx);
  }

  lemma GraphRepeats(e: Event, env: Environment, ans: Answers, c0: Case, c: Case)
    requires c.policy == c0.policy || c.policy == S.PolicyAfter(RunGraph(e, env, ans, c0), c0.policy)
    ensures var run := RunGraph(e, env, ans, c0);
            RunGraph(e, env, ans, c) == run.(ctx := run.ctx.(snapshot := c))
    ensures RunGraph(e, env, ans, c0).ctx.snapshot == c0
  {
    hide Visit;
    RunsRepeat(LoadCaseState, e, env, ans, Blank(c0), c);
    S.GraphIsSound(e, env, ans, c0);
  }

  /** Where an interrupted run of writes has left the lifecycle: untouched before the lifecycle write,
      decided from it on. */
  lemma PrefixEffect(c: Case, d: L.Decision, scope: Option<seq<L.Action>>, phase: Phase, policy: Option<R.Verdict>,
                     n: nat)
    requires n <= |ClaimStep(d, scope)| + 1
    ensures var claims := ClaimWrites(d.commands, d.cycle, scope);
            var c' := ApplyAll(c, (ClaimStep(d, scope) + [OutcomeWrite(phase, policy)])[..n]);
            c'.supplier == c.supplier
            && (n <= |claims| ==> LifecycleOf(c') == LifecycleOf(c)
                                  && c.outbox.Keys <= c'.outbox.Keys <= c.outbox.Keys + ClaimedKeys(claims))
            && (n > |claims| ==> LifecycleOf(c') == L.Stored(LifecycleOf(c), L.Decided(d))
                                 && c'.outbox.Keys == c.outbox.Keys + ClaimedKeys(claims))
            && (c'.policy == c.policy || (n == |claims| + 2 && policy.Some? && c'.policy == Stored(policy.value)))
  {
    hide C.Claimed;
    var claims := ClaimWrites(d.commands, d.cycle, scope);
    var life, outcome := LifecycleOutcome(d, scope), OutcomeWrite(phase, policy);
    var ws := ClaimStep(d, scope) + [outcome];
    ClaimWritesClaim(d.commands, d.cycle, scope);
    WritesExtendTheOutbox(c, ws[..n]);
    if n <= |claims| {
      assert ws[..n] == claims[..n];
      assert forall w :: w in claims[..n] ==> w in claims;
      ClaimsTouchOnlyTheOutbox(c, claims[..n]);
    } else {
      ClaimsTouchOnlyTheOutbox(c, claims);
      WritesExtendTheOutbox(c, claims);
      ApplyInTwo(c, claims, [life]);
      assert [life][..0] == [] && [outcome][..0] == [];
      if n == |claims| + 1 {
        assert ws[..n] == claims + [life];
      } else {
        assert ws[..n] == ws;
        ClaimingRunEffect(c, d, scope, phase, policy);
      }
    }
  }

  /** The run reaches a claiming terminal and its deciding step returns. */
  predicate Decides(e: Event, env: Environment, run: Run)
    requires |run.trace| > 0
  {
    Claims(run) && S.DecisionOf(e, env, run).Decided?
  }

  /** Deciding the same evidence again on what an interrupted decision left behind arrives where that decision
      would have, whatever phases and verdicts the two runs record. */
  lemma DecidingAgain(c0: Case, tick: L.Tick, scope: Option<seq<L.Action>>, o: Write, n: nat, c1: Case, o1: Write)
    requires L.WellKept(LifecycleOf(c0)) && L.Decision1(LifecycleOf(c0), tick).Decided? && o.OutcomeWrite?
             && o1.OutcomeWrite?
    requires var d := L.Decision1(LifecycleOf(c0), tick).decision;
             n <= |ClaimStep(d, scope)| + 1 && SameLifecycle(c1, ApplyAll(c0, (ClaimStep(d, scope) + [o])[..n]))
    ensures L.Decision1(LifecycleOf(c1), tick).Decided?
    ensures var d := L.Decision1(LifecycleOf(c0), tick).decision;
            var again := L.Decision1(LifecycleOf(c1), tick).decision;
            SameLifecycle(ApplyAll(c1, ClaimStep(again, scope) + [o1]), ApplyAll(c0, ClaimStep(d, scope) + [o]))
            && (ClaimWrites(again.commands, again.cycle, scope) == [] <==>
                  ClaimWrites(d.commands, d.cycle, scope) == []
                  || (n > |ClaimWrites(d.commands, d.cycle, scope)| && d.reason != L.AwaitingEvidence))
  {
    hide L.Decision1, L.Advance, L.WellKept, C.Claimed, ClaimedKeys, ApplyAll, ClaimStep, ClaimWrites, RefusedKeys,
         SameLifecycle;
    var d := L.Decision1(LifecycleOf(c0), tick).decision;
    PrefixLeaves(c0, d, scope, o, n, c1);
    if n > |ClaimWrites(d.commands, d.cycle, scope)| {
      StoredIsAdvanced(LifecycleOf(c0), tick);
      DecidingAfterwards(LifecycleOf(c0), tick);
    }
    var again := L.Decision1(LifecycleOf(c1), tick).decision;
    if again.commands == [] {
      NoCommandsNoKeys(again.cycle, scope);
    }
    ClaimingTwice(c0, d, scope, o, c1, again, o1);
  }

  lemma StoredIsAdvanced(s: L.CaseState, tick: L.Tick)
    requires L.Decision1(s, tick).Decided?
    ensures L.Stored(s, L.Decided(L.Decision1(s, tick).decision)) == L.Advance(s, tick)
  {
  }

  /** What an interrupted run of writes leaves for a second one to start from. */
  lemma PrefixLeaves(c0: Case, d: L.Decision, scope: Option<seq<L.Action>>, o: Write, n: nat, c1: Case)
    requires o.OutcomeWrite? && n <= |ClaimStep(d, scope)| + 1
             && SameLifecycle(c1, ApplyAll(c0, (ClaimStep(d, scope) + [o])[..n]))
    ensures var claims := ClaimWrites(d.commands, d.cycle, scope);
            (n <= |claims| ==> LifecycleOf(c1) == LifecycleOf(c0)
                               && c0.outbox.Keys <= c1.outbox.Keys <= c0.outbox.Keys + ClaimedKeys(claims))
            && (n > |claims| ==> LifecycleOf(c1) == L.Stored(LifecycleOf(c0), L.Decided(d))
                                 && c1.outbox.Keys == c0.outbox.Keys + ClaimedKeys(claims))
  {
    hide C.Claimed, ClaimedKeys, ApplyAll, ClaimStep, ClaimWrites, L.Stored;
    PrefixEffect(c0, d, scope, o.phase, o.policy, n);
  }

  /** Two claiming runs meet when the second starts from the lifecycle of the first, or from where the first ended
      with a decision that stays there, and the commands of both add up to those of the first. */
  lemma ClaimingTwice(c0: Case, d: L.Decision, scope: Option<seq<L.Action>>, o: Write, c1: Case, again: L.Decision,
                      o1: Write)
    requires o.OutcomeWrite? && o1.OutcomeWrite?
    requires L.Stored(LifecycleOf(c1), L.Decided(again)) == L.Stored(LifecycleOf(c0), L.Decided(d))
    requires c1.outbox.Keys + ClaimedKeys(ClaimWrites(again.commands, again.cycle, scope))
             == c0.outbox.Keys + ClaimedKeys(ClaimWrites(d.commands, d.cycle, scope))
    ensures SameLifecycle(ApplyAll(c1, ClaimStep(again, scope) + [o1]), ApplyAll(c0, ClaimStep(d, scope) + [o]))
  {
    hide C.Claimed, ClaimedKeys, ApplyAll, ClaimStep, ClaimWrites;
    ClaimingRunEffect(c0, d, scope, o.phase, o.policy);
    ClaimingRunEffect(c1, again, scope, o1.phase, o1.policy);
    StoredIsDecided(LifecycleOf(c0), d);
    StoredIsDecided(LifecycleOf(c1), again);
  }

  lemma DecidingAfterwards(s: L.CaseState, tick: L.Tick)
    requires L.WellKept(s) && L.Decision1(s, tick).Decided?
    ensures var o, again := L.Decision1(s, tick), L.Decision1(L.Advance(s, tick), tick);
            var s' := L.Advance(s, tick);
            again.Decided?
            && s' == s'.(state := again.decision.state, cycle := again.decision.cycle,
                         certificate := if again.decision.certificate.Some?
                                        then again.decision.certificate else s'.certificate)
            && (if o.decision.reason == L.AwaitingEvidence
                then again.decision.commands == o.decision.commands && again.decision.cycle == o.decision.cycle
                else again.decision.commands == [])
  {
    hide L.Decision1, L.WellKept;
    L.ReplayIsStable(s, tick);
  }

  lemma StoredIsDecided(s: L.CaseState, d: L.Decision)
    ensures L.Stored(s, L.Decided(d)) ==
              s.(state := d.state, cycle := d.cycle,
                 certificate := if d.certificate.Some? then d.certificate else s.certificate)
  {
  }

  lemma NoCommandsNoKeys(cycle: int, scope: Option<seq<L.Action>>)
    ensures ClaimWrites([], cycle, scope) == [] && ClaimedKeys(ClaimWrites([], cycle, scope)) == {}
  {
  }

  /** A redispatch opens a new session: models and the screening service are asked again and may answer otherwise.
      As long as both runs reach a claiming terminal with the same evidence, under the same scope and timing,
      stopping the first after any write and running the event again later - rows meanwhile drained in any way,
      verdict and phase whatever they are - reaches lifecycle, certificate and commands of the uninterrupted first
      run. Only the recorded phase depends on where it stopped. */
  lemma RedispatchConverges(e: Event, env: Environment, ans: Answers, c0: Case, n: nat, env': Environment,
                            ans': Answers, c1: Case)
    requires L.WellKept(LifecycleOf(c0))
    requires CommandScope(env'.catalog, e.department) == CommandScope(env.catalog, e.department)
    requires R.LifecycleTiming(env'.policy) == R.LifecycleTiming(env.policy)
    requires var first, second := RunGraph(e, env, ans, c0), RunGraph(e, env', ans', c1);
             Decides(e, env, first) && Claims(second) && second.ctx.evidence == first.ctx.evidence
             && n <= |Writes(e, env, first)| && SameLifecycle(c1, ApplyAll(c0, Writes(e, env, first)[..n]))
    ensures var first, second := RunGraph(e, env, ans, c0), RunGraph(e, env', ans', c1);
            var d := S.DecisionOf(e, env, first).decision;
            var claims := ClaimWrites(d.commands, d.cycle, CommandScope(env.catalog, e.department));
            var again := ApplyAll(c1, Writes(e, env', second));
            Decides(e, env', second)
            && SameLifecycle(again, ApplyAll(c0, Writes(e, env, first)))
            && again.phase ==
                 OutcomePhase(End(second), claims != [] && (n <= |claims| || d.reason == L.AwaitingEvidence))
            && forall k :: k in c1.outbox && C.Settled(c1.outbox[k].status) ==>
                k in again.outbox && again.outbox[k] == c1.outbox[k]
  {
    hide RunFrom, Visit, L.Decide, L.WellKept, C.Claimed, ClaimedKeys, ClaimWrites, RefusedKeys, CommandScope, L.Stored,
         ClaimStep, ApplyAll, SameLifecycle;
    var first, second := RunGraph(e, env, ans, c0), RunGraph(e, env', ans', c1);
    var tick := L.Tick(S.LifecycleEvent(e), first.ctx.evidence, R.LifecycleTiming(env.policy));
    var scope := CommandScope(env.catalog, e.department);
    DecidesOnTheTick(e, env, ans, c0, tick);
    DecidesOnTheTick(e, env', ans', c1, tick);
    var again := L.Decision1(LifecycleOf(c1), tick);
    var d := L.Decision1(LifecycleOf(c0), tick).decision;
    var o := OutcomeWrite(OutcomePhase(End(first), ClaimWrites(d.commands, d.cycle, scope) != []), first.ctx.policy);
    var claimed := again.Decided? && ClaimWrites(again.decision.commands, again.decision.cycle, scope) != [];
    var o1 := OutcomeWrite(OutcomePhase(End(second), claimed), second.ctx.policy);
    DecidingAgain(c0, tick, scope, o, n, c1, o1);
    ClaimingRunEffect(c1, again.decision, scope, o1.phase, o1.policy);
    WritesExtendTheOutbox(c1, Writes(e, env', second));
  }

  lemma DecidesOnTheTick(e: Event, env: Environment, ans: Answers, c: Case, tick: L.Tick)
    requires var run := RunGraph(e, env, ans, c);
             tick == L.Tick(S.LifecycleEvent(e), run.ctx.evidence, R.LifecycleTiming(env.policy))
    ensures S.DecisionOf(e, env, RunGraph(e, env, ans, c)) == L.Decision1(LifecycleOf(c), tick)
    ensures var run := RunGraph(e, env, ans, c); Claims(run) ==> run.fate.Finished?
  {
    hide RunFrom, Visit, L.Decide;
    S.GraphIsSound(e, env, ans, c);
    RunsVisit(e, env, ans, c);
  }

  /** What remains when the second run reaches no claiming terminal - quarantine, an exception, a lost route: it
      leaves lifecycle, certificate and rows where the interrupted run had got. That is the uninterrupted outcome
      exactly when the lifecycle write had happened, or nothing was left to decide and to claim. */
  lemma RedispatchThatDoesNotClaim(e: Event, env: Environment, ans: Answers, c0: Case, n: nat, env': Environment,
                                   ans': Answers, c1: Case)
    requires var first, second := RunGraph(e, env, ans, c0), RunGraph(e, env', ans', c1);
             Decides(e, env, first) && !Decides(e, env', second)
             && n <= |Writes(e, env, first)| && SameLifecycle(c1, ApplyAll(c0, Writes(e, env, first)[..n]))
    ensures var first, second := RunGraph(e, env, ans, c0), RunGraph(e, env', ans', c1);
            var d := S.DecisionOf(e, env, first).decision;
            var claims := ClaimWrites(d.commands, d.cycle, CommandScope(env.catalog, e.department));
            var again := ApplyAll(c1, Writes(e, env', second));
            LifecycleOf(again) == LifecycleOf(c1) && again.outbox == c1.outbox
            && (End(second).QuarantineCase? ==> again.phase == Quarantined)
            && (SameLifecycle(again, ApplyAll(c0, Writes(e, env, first))) <==>
                  n > |claims|
                  || (L.Stored(LifecycleOf(c0), L.Decided(d)) == LifecycleOf(c0)
                    && ClaimedKeys(claims) <= c1.outbox.Keys))
  {
    hide RunFrom, Visit, L.Decide, C.Claimed, ClaimedKeys, ClaimWrites, RefusedKeys, CommandScope, L.Stored;
    var first, second := RunGraph(e, env, ans, c0), RunGraph(e, env', ans', c1);
    S.GraphIsSound(e, env, ans, c0);
    S.TerminalsCarryTheirVerdict(e, env', ans', c1);
    var scope := CommandScope(env.catalog, e.department);
    var d := S.DecisionOf(e, env, first).decision;
    var ws := Writes(e, env, first);
    PrefixConverges(c0, d, scope, ws[|ws| - 1], n, c1);
    OutcomeAlone(c1, e, env', second);
  }

  /** An interrupted run of writes has come to its end, as far as lifecycle and commands go, exactly when the
      lifecycle write was made, or it would have changed nothing and every claim was made. */
  lemma PrefixConverges(c0: Case, d: L.Decision, scope: Option<seq<L.Action>>, o: Write, n: nat, c1: Case)
    requires o.OutcomeWrite? && n <= |ClaimStep(d, scope)| + 1
             && SameLifecycle(c1, ApplyAll(c0, (ClaimStep(d, scope) + [o])[..n]))
    ensures var claims := ClaimWrites(d.commands, d.cycle, scope);
            SameLifecycle(c1, ApplyAll(c0, ClaimStep(d, scope) + [o])) <==>
              n > |claims|
              || (L.Stored(LifecycleOf(c0), L.Decided(d)) == LifecycleOf(c0) && ClaimedKeys(claims) <= c1.outbox.Keys)
  {
    hide C.Claimed, ClaimedKeys, ClaimWrites, ApplyAll, RefusedKeys;
    PrefixEffect(c0, d, scope, o.phase, o.policy, n);
    ClaimingRunEffect(c0, d, scope, o.phase, o.policy);
    StoredIsDecided(LifecycleOf(c0), d);
  }

  lemma OutcomeAlone(c: Case, e: Event, env: Environment, run: Run)
    requires |run.trace| > 0 && !Decides(e, env, run)
    ensures var after := ApplyAll(c, Writes(e, env, run));
            LifecycleOf(after) == LifecycleOf(c) && after.outbox == c.outbox
            && (End(run).QuarantineCase? ==> after.phase == Quarantined)
  {
    var o := OutcomeWrite(Quarantined, run.ctx.policy);
    assert [o][..0] == [] && ApplyAll(c, [o]) == Apply(ApplyAll(c, []), o);
  }

  /** And when the first run claimed nothing, a second one starts from the lifecycle and the rows it started from. */
  lemma FirstRunThatDoesNotClaim(e: Event, env: Environment, ans: Answers, c0: Case, n: nat)
    requires var first := RunGraph(e, env, ans, c0); !Decides(e, env, first) && n <= |Writes(e, env, first)|
    ensures SameLifecycle(ApplyAll(c0, Writes(e, env, RunGraph(e, env, ans, c0))[..n]), c0)
  {
    hide RunFrom, S.DecisionOf;
    var first := RunGraph(e, env, ans, c0);
    RunsVisit(e, env, ans, c0);
    var ws := Writes(e, env, first);
    OutcomeAlone(c0, e, env, first);
    if n == |ws| { assert ws[..n] == ws; } else { assert ws[..n] == []; }
  }

  /** When models and screening do repeat their answers, all of this applies - the second run takes the nodes of the
      first - and the verdict converges too. */
  lemma SameAnswersConverge(e: Event, env: Environment, ans: Answers, c0: Case, n: nat, c1: Case)
    requires L.WellKept(LifecycleOf(c0))
    requires var ws := Writes(e, env, RunGraph(e, env, ans, c0));
             n <= |ws| && SameMission(c1, ApplyAll(c0, ws[..n]))
    ensures SameMission(ApplyAll(c1, Writes(e, env, RunGraph(e, env, ans, c1))),
                        ApplyAll(c0, Writes(e, env, RunGraph(e, env, ans, c0))))
  {
    hide RunFrom, Visit, L.Decide, L.WellKept, C.Claimed, ClaimedKeys, L.Stored, RefusedKeys;
    var first := RunGraph(e, env, ans, c0);
    RunsVisit(e, env, ans, c0);
    var ws := Writes(e, env, first);
    if Decides(e, env, first) {
      var d := S.DecisionOf(e, env, first).decision;
      var scope := CommandScope(env.catalog, e.department);
      PrefixEffect(c0, d, scope, ws[|ws| - 1].phase, first.ctx.policy, n);
      GraphRepeats(e, env, ans, c0, c1);
      RedispatchConverges(e, env, ans, c0, n, env, ans, c1);
      S.TerminalsCarryTheirVerdict(e, env, ans, c0);
      PolicyIsRecorded(c0, e, env, first);
      PolicyIsRecorded(c1, e, env, RunGraph(e, env, ans, c1));
    } else {
      SameQuarantine(e, env, ans, c0, n, c1);
    }
  }

  lemma PolicyIsRecorded(c: Case, e: Event, env: Environment, run: Run)
    requires |run.trace| > 0 && Decides(e, env, run) && run.ctx.policy.Some? && run.fate.Finished?
    ensures ApplyAll(c, Writes(e, env, run)).policy == Stored(run.ctx.policy.value)
  {
  }

  lemma SameQuarantine(e: Event, env: Environment, ans: Answers, c0: Case, n: nat, c1: Case)
    requires var first := RunGraph(e, env, ans, c0);
             !Decides(e, env, first) && n <= |Writes(e, env, first)|
               && SameMission(c1, ApplyAll(c0, Writes(e, env, first)[..n]))
    ensures SameMission(ApplyAll(c1, Writes(e, env, RunGraph(e, env, ans, c1))),
                        ApplyAll(c0, Writes(e, env, RunGraph(e, env, ans, c0))))
  {
    hide RunFrom, C.Claimed, L.Decide;
    var first := RunGraph(e, env, ans, c0);
    RunsVisit(e, env, ans, c0);
    var o := OutcomeWrite(Quarantined, first.ctx.policy);
    assert [o][..0] == [] && [o][..1] == [o];
    FirstRunThatDoesNotClaim(e, env, ans, c0, n);
    S.TerminalsCarryTheirVerdict(e, env, ans, c0);
    GraphRepeats(e, env, ans, c0, c1);
    OutcomeAlone(c0, e, env, first);
    OutcomeAlone(c1, e, env, RunGraph(e, env, ans, c1));
  }
}
