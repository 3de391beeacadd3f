/** Everything that can happen around one case, one atomic step at a time and in any interleaving: deliveries,
    graph writes, decisions, and any number of overlapping drains that may crash or lose responses anywhere. */
module Protocol {

  import opened Basics
  import opened Store
  import A = Approvals
  import C = Commands
  import E = Erp
  import G = Graph
  import H = GraphSafety
  import I = Inbox
  import K = Risk
  import L = Lifecycle
  import R = Runner
  import T = Terminals

  /* ---- the machine ---- */

  /** A call in progress: its lookup has been made; `ok` is set once it has returned or raised. */
  datatype Call = Call(key: Key, supplier: string, found: bool, ok: Option<bool>)

  /** A drain in flight: the case as it read it, the ledger once it has read that, and what is left to do. */
  datatype Worker = Worker(view: Case, ledger: Option<map<Key, Row>>, left: set<Key>, call: Option<Call>)

  /** What an observer would have written down. */
  datatype Obs =
    | CaseRead(id: nat, view: Case)
    | LedgerRead(id: nat, ledger: map<Key, Row>)
    | Called(id: nat, key: Key)
    | Answered(key: Key, applied: bool, ok: bool)
    | Recorded(key: Key, ok: bool)
    | AckLost(key: Key)
    | Landed(key: Key)
    | Decided(record: Approval, phase: Phase, gate: Option<Band>)

  /** `adrift` holds the requests nobody waits for any more, which the ERP may still apply. */
  datatype World = World(c: Case, records: E.Records, workers: map<nat, Worker>, nextId: nat, log: seq<Obs>,
                         adrift: multiset<Call>)

  datatype Step =
    | Deliver(d: I.Delivery)
    | Mark(eventId: string)
    | GraphWrite(w: T.Write)
    | Decide(a: A.Attempt)
    | Begin
    | ReadLedger(id: nat)
    | Refuse(id: nat, key: Key)
    | Start(id: nat, key: Key)
    | Respond(id: nat, answer: E.Answer)
    | Record(id: nat)
    | Stop(id: nat)
    | Land(call: Call)

  /** The writes a graph run can make: any claim for the supplier - for whichever the event names, if the case names
      none -, any lifecycle block, and an outcome whose phase fits its verdict. */
  predicate Legitimate(c: Case, w: T.Write) {
    match w
    case ClaimWrite(_, s) => c.supplier != "" ==> s == c.supplier
    case LifecycleWrite(_, _, _, _) => true
    case OutcomeWrite(phase, policy) =>
      match phase
      case AwaitingApproval => policy.Some? && policy.value.band == Review
      case Committed => policy.Some? && policy.value.band == Clear
      case NoAction => policy.Some? && policy.value.band == Clear
      case Quarantined => policy.None? || policy.value.band == Blocked
      case Processing => false
  }

  /** Whether a worker may take a step on a key it has left. */
  predicate Idle(w: World, id: nat, key: Key) {
    id in w.workers && w.workers[id].ledger.Some? && w.workers[id].call.None? && key in w.workers[id].left
    && key in w.workers[id].ledger.value
  }

  /** At most `n` drains are in flight at a time. */
  predicate Enabled(n: nat, w: World, s: Step) {
    match s
    case Deliver(_) => true
    case Mark(e) => e in w.c.inbox
    case GraphWrite(x) => Legitimate(w.c, x)
    case Decide(_) => true
    case Begin => |w.workers| < n
    case ReadLedger(id) => id in w.workers && w.workers[id].ledger.None?
    case Refuse(id, k) => Idle(w, id, k) && !R.Permitted(R.Cleared(w.workers[id].view), k.action)
    case Start(id, k) => Idle(w, id, k) && R.Permitted(R.Cleared(w.workers[id].view), k.action)
    case Respond(id, _) => id in w.workers && w.workers[id].call.Some? && w.workers[id].call.value.ok.None?
    case Record(id) => id in w.workers && w.workers[id].call.Some? && w.workers[id].call.value.ok.Some?
                       && w.workers[id].call.value.key in w.c.outbox
    case Stop(id) => id in w.workers
    case Land(x) => x in w.adrift
  }

  /** The request of a call goes out: its lookup was answered and did not already settle it. */
  predicate Requested(r: E.Records, x: Call, a: E.Answer) {
    match x.key.action
    case CreateSupplier => a.lookup
    case AttachEvidence => a.lookup && !x.found
    case RequestRenewal => a.lookup && x.supplier in r.suppliers && a.addressed
    case ApplyHold => true
    case ClearHold => true
  }

  predicate Returns(r: E.Records, x: Call, a: E.Answer) {
    (x.key.action == L.AttachEvidence && a.lookup && x.found)
    || (Requested(r, x, a) && (E.Accepted(a) || (x.key.action == L.CreateSupplier && E.Duplicate(a))))
  }

  function Open(outbox: map<Key, Row>): set<Key> {
    set k | k in outbox && !C.Settled(outbox[k].status)
  }

  function WithWorker(w: World, id: nat, x: Worker): World {
    w.(workers := w.workers[id := x])
  }

  /** A call that its drain stops waiting for may have a request on its way, unless its lookup settled it. */
  predicate OnItsWay(x: Call) { !(x.key.action == L.AttachEvidence && x.found) }

  /** The call returns or raises. A request that gets no response without having been applied may land later. */
  function AfterResponse(w: World, id: nat, a: E.Answer): World
    requires Enabled(0, w, Respond(id, a))
  {
    var x := w.workers[id].call.value;
    var applied := Requested(w.records, x, a) && a.applied;
    var ok := Returns(w.records, x, a);
    World(w.c, if applied then E.Apply(w.records, x.key.action, x.supplier, x.key.cycle) else w.records,
          w.workers[id := w.workers[id].(call := Some(x.(ok := Some(ok))))], w.nextId,
          w.log + [Answered(x.key, applied, ok)],
          if Requested(w.records, x, a) && !a.applied && !a.delivered then w.adrift + multiset{x} else w.adrift)
  }

  function AfterRecord(w: World, id: nat): World
    requires Enabled(0, w, Record(id))
  {
    var x := w.workers[id].call.value;
    var k := x.key;
    w.(c := w.c.(outbox := if x.ok.value then C.Succeeded(w.c.outbox, k) else C.FailedOnce(w.c.outbox, k)),
       workers := w.workers[id := w.workers[id].(left := w.workers[id].left - {k}, call := None)],
       log := w.log + [Recorded(k, x.ok.value)])
  }

  /** A drain ends, or its process dies. A returned call that was not recorded yet is a lost acknowledgement; one that
      has not returned may still land. */
  function AfterStop(w: World, id: nat): World
    requires id in w.workers
  {
    var x := w.workers[id].call;
    w.(workers := w.workers - {id},
       log := if x.Some? && x.value.ok == Some(true) then w.log + [AckLost(x.value.key)] else w.log,
       adrift := if x.Some? && x.value.ok.None? && OnItsWay(x.value) then w.adrift + multiset{x.value} else w.adrift)
  }

  function AfterLanding(w: World, x: Call): World {
    w.(records := E.Apply(w.records, x.key.action, x.supplier, x.key.cycle), log := w.log + [Landed(x.key)],
       adrift := w.adrift - multiset{x})
  }

  function AfterDecide(w: World, a: A.Attempt): World {
    if !A.Outcome(Some(w.c), a).committed then w
    else w.(c := A.Decided(Some(w.c), a).value, log := w.log + [Decided(A.Record(w.c, a), w.c.phase, GateBand(w.c))])
  }

  function Next(n: nat, w: World, s: Step): World
    requires Enabled(n, w, s)
  {
    match s
    case Deliver(d) => w.(c := I.Claimed(Some(w.c), d).value)
    case Mark(e) => w.(c := I.Dispatched(w.c, e))
    case GraphWrite(x) => w.(c := T.Apply(w.c, x))
    case Decide(a) => AfterDecide(w, a)
    case Begin =>
      w.(workers := w.workers[w.nextId := Worker(w.c, None, {}, None)], nextId := w.nextId + 1,
         log := w.log + [CaseRead(w.nextId, w.c)])
    case ReadLedger(id) =>
      WithWorker(w, id, w.workers[id].(ledger := Some(w.c.outbox), left := Open(w.c.outbox)))
      .(log := w.log + [LedgerRead(id, w.c.outbox)])
    case Refuse(id, k) => WithWorker(w, id, w.workers[id].(left := w.workers[id].left - {k}))
    case Start(id, k) =>
      var s := w.workers[id].ledger.value[k].supplier;
      WithWorker(w, id, w.workers[id].(call := Some(Call(k, s, (s, k.cycle) in w.records.files, None))))
      .(log := w.log + [Called(id, k)])
    case Respond(id, a) => AfterResponse(w, id, a)
    case Record(id) => AfterRecord(w, id)
    case Stop(id) => AfterStop(w, id)
    case Land(x) => AfterLanding(w, x)
  }

  function Initial(supplier: string): World {
    World(NoCase(supplier), E.Records({}, {}, multiset{}, multiset{}), map[], 0, [], multiset{})
  }

  /* ---- counting what was observed ---- */

  function Count(log: seq<Obs>, p: Obs -> bool): nat {
    if log == [] then 0 else Count(log[..|log| - 1], p) + if p(log[|log| - 1]) then 1 else 0
  }

  lemma CountOneMore(log: seq<Obs>, o: Obs, p: Obs -> bool)
    ensures Count(log + [o], p) == Count(log, p) + if p(o) then 1 else 0
  {
    assert (log + [o])[..|log|] == log;
  }

  /** A call of command `k` was applied while its drain waited for it. */
  function Effected(k: Key): Obs -> bool {
    (o: Obs) => o.Answered? && o.key == k && o.applied
  }

  /** One was applied after its drain had stopped waiting. */
  function LandedLate(k: Key): Obs -> bool {
    (o: Obs) => o == Landed(k)
  }

  /* ---- schedules ---- */

  /** Where a schedule of steps leads from a world; a step that is not enabled when its turn comes is skipped. */
  function RunFrom(n: nat, start: World, steps: seq<Step>): World
    decreases |steps|
  {
    if |steps| == 0 then start
    else
      var w := RunFrom(n, start, steps[..|steps| - 1]);
      var s := steps[|steps| - 1];
      if Enabled(n, w, s) then Next(n, w, s) else w
  }

  function Run(n: nat, supplier: string, steps: seq<Step>): World {
    RunFrom(n, Initial(supplier), steps)
  }

  lemma {:induction false} RunsCompose(n: nat, start: World, first: seq<Step>, second: seq<Step>)
    ensures RunFrom(n, start, first + second) == RunFrom(n, RunFrom(n, start, first), second)
    decreases |second|
  {
    hide Enabled, Next;
    if |second| == 0 {
      assert first + second == first;
    } else {
      var last := |second| - 1;
      RunsCompose(n, start, first, second[..last]);
      assert (first + second)[..|first + second| - 1] == first + second[..last];
    }
  }

  function Take(n: nat, w: World, s: Step): World {
    if Enabled(n, w, s) then Next(n, w, s) else w
  }

  lemma StepByStep(n: nat, w: World, a: Step, b: Step, c: Step)
    ensures RunFrom(n, w, [a]) == Take(n, w, a)
    ensures RunFrom(n, w, [a, b]) == Take(n, Take(n, w, a), b)
    ensures RunFrom(n, w, [a, b, c]) == Take(n, Take(n, Take(n, w, a), b), c)
  {
    hide Enabled, Next;
    assert [a, b, c][..2] == [a, b] && [a, b][..1] == [a] && [a][..0] == [];
    assert RunFrom(n, w, []) == w;
    assert RunFrom(n, w, [a]) == Take(n, w, a);
    assert RunFrom(n, w, [a, b]) == Take(n, Take(n, w, a), b);
  }

  lemma Nothing(n: nat, w: World)
    ensures RunFrom(n, w, []) == w
  {
  }

  lemma Extend(n: nat, w: World, steps: seq<Step>, s: Step)
    ensures RunFrom(n, w, steps + [s]) == Take(n, RunFrom(n, w, steps), s)
  {
    hide Enabled, Next;
    assert (steps + [s])[..|steps|] == steps;
  }

  /** Every write of a graph run is one the machine allows. */
  lemma {:induction false} GraphWritesAreLegitimate(c: Case, e: G.Event, env: G.Environment, ans: G.Answers, w: T.Write)
    requires |G.RunGraph(e, env, ans, c).trace| > 0
    requires w in T.Writes(e, env, G.RunGraph(e, env, ans, c))
    ensures Legitimate(c, w)
  {
    hide G.RunGraph, L.Decide, T.CommandScope;
    var run := G.RunGraph(e, env, ans, c);
    H.TerminalsCarryTheirVerdict(e, env, ans, c);
    H.GraphIsSound(e, env, ans, c);
    if T.Decides(e, env, run) {
      var d := H.DecisionOf(e, env, run).decision;
      var scope := T.CommandScope(env.catalog, e.department);
      T.ClaimWritesClaim(d.commands, d.cycle, scope);
      if c.supplier != "" {
        ClaimsAreForTheSupplier(d, scope, c.supplier, e, env, run);
      }
    }
  }

  lemma ClaimsAreForTheSupplier(d: L.Decision, scope: Option<seq<L.Action>>, s: string, e: G.Event, env: G.Environment,
                                run: G.Run)
    requires H.DecisionOf(e, env, run) == L.Decided(d) && run.ctx.snapshot.supplier == s != ""
    ensures forall w :: w in T.ClaimWrites(d.commands, d.cycle, scope) ==> w.ClaimWrite? && w.supplier == s
  {
    var tick := L.Tick(H.LifecycleEvent(e), run.ctx.evidence, K.LifecycleTiming(env.policy));
    L.CommandsNameTheSupplier(LifecycleOf(run.ctx.snapshot), tick);
    T.ClaimSuppliers(d.commands, d.cycle, scope, s);
  }
}
