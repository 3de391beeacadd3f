/** End to end: when nothing fails and no case waits for a human, the ERP shows after every push what the
    lifecycle says (ingress, graph, ledger and executor together). */
module Agreement {

  import opened Basics
  import opened Store
  import C = Commands
  import Dates
  import E = Erp
  import F = Fleet
  import G = Graph
  import H = GraphSafety
  import I = Inbox
  import J = Json
  import L = Lifecycle
  import N = Ingress
  import R = Runner
  import T = Terminals
  import K = Risk

  /* ---- the conditions ---- */

  /** The ERP applies and acknowledges a call. */
  predicate Served(a: E.Answer) { a == E.Answer(true, true, true, 200, true) }

  ghost predicate PermitsEverything(scope: Option<seq<L.Action>>) {
    forall a: L.Action :: T.InScope(scope, a)
  }

  /** Only a new supplier's packet is routed through compliance, as the shipped catalog has it. */
  ghost predicate OnlyPacketsScreen(c: F.Catalog) {
    forall t :: t in c.eventRoutes && "compliance" in c.eventRoutes[t] ==> t == "new_supplier_packet"
  }

  /** A dated event of the one supplier, from a department that may originate every command, handled with
      nothing failing and no verdict of review. Blocked verdicts, refused routes, ungrounded or tainted
      documents, duplicates and stale deliveries are all allowed. */
  ghost predicate Smooth(s: string, c: Option<Case>, p: N.Push) {
    && s != "" && p.event.supplier == s && p.event.on.Some? && R.Enumerates(p.order)
    && p.env.catalog.Some? && F.Loaded(p.env.catalog.value) && OnlyPacketsScreen(p.env.catalog.value)
    && PermitsEverything(T.CommandScope(p.env.catalog, p.event.department))
    && (forall k :: Served(p.calls(k))) && p.death.None?
    && (var claimed := I.Claimed(c, N.DeliveryOf(p));
        claimed.Some? ==>
          !N.EngineRaises(claimed.value, p)
          && !G.End(G.RunGraph(p.event, p.env, p.answers, claimed.value)).ParkCase?)
  }

  /* ---- agreement ---- */

  /** What the ERP shows about a supplier matches the case: on hold exactly while held, present from
      onboarding on, and one file per accepted certificate and no other. */
  ghost predicate Agrees(s: string, c: Case, r: E.Records) {
    && (s in r.onHold <==> c.state == L.Held)
    && (c.state != L.Onboarding ==> s in r.suppliers)
    && (forall n: int :: r.files[(s, n)] ==
          if c.certificate.Some? && c.cycle - c.certificate.value.evidenceVersion < n <= c.cycle then 1 else 0)
  }

  /** Between pushes: every command is done, spent as far as the lifecycle goes, and the ERP agrees. */
  ghost predicate Settled(s: string, c: Case, r: E.Records) {
    && c.supplier == s && L.WellKept(LifecycleOf(c)) && Agrees(s, c, r)
    && (forall k :: k in c.outbox ==> c.outbox[k].status == Done
                                      && (if k.action == L.CreateSupplier then s in r.suppliers
                                          else L.Spent(LifecycleOf(c), k.action, k.cycle)))
    && c.approval.None?
    && (c.policy.NoPolicy? || c.policy.Stored?)
    && (c.policy.Stored? ==> !c.policy.verdict.band.Foreign?)
    && (c.policy.Stored? && c.policy.verdict.band == Clear ==> s in r.suppliers)
  }

  /* ---- what a served drain does ---- */

  ghost predicate Has(todo: seq<Key>, a: L.Action) { exists i :: 0 <= i < |todo| && todo[i].action == a }

  lemma ServedStep(d: R.Drain, read: map<Key, Row>, k: Key, a: E.Answer, s: string)
    requires Served(a) && k in read && k in d.outbox && read[k].supplier == s
    requires k.action == L.RequestRenewal ==> s in d.records.suppliers
    ensures var d' := R.DrainStep(d, true, read, k, a);
            d'.outbox == d.outbox[k := d.outbox[k].(status := Done)]
            && d'.records.suppliers ==
                 (if k.action == L.CreateSupplier then d.records.suppliers + {s} else d.records.suppliers)
            && d'.records.onHold == (if k.action == L.ApplyHold then d.records.onHold + {s}
                                     else if k.action == L.ClearHold then d.records.onHold - {s} else d.records.onHold)
            && (forall n: int :: d'.records.files[(s, n)] ==
                  if k == Key(L.AttachEvidence, n) && (s, n) !in d.records.files then 1 else d.records.files[(s, n)])
  {
  }

  /** Draining served commands finishes each and leaves exactly their records, holds in the order given. */
  lemma {:induction false} ServedDrain(d: R.Drain, read: map<Key, Row>, todo: seq<Key>, calls: Key -> E.Answer,
                                       s: string)
    requires R.NoRepeats(todo) && read == d.outbox
    requires forall k :: k in todo ==> k in read && read[k].supplier == s && Served(calls(k))
    requires Has(todo, L.RequestRenewal) ==> s in d.records.suppliers
    requires !(Has(todo, L.ApplyHold) && Has(todo, L.ClearHold))
    ensures var d' := R.DrainAll(d, true, read, todo, calls);
            d'.outbox.Keys == d.outbox.Keys
            && (forall k :: k in d.outbox ==>
                d'.outbox[k] == if k in todo then d.outbox[k].(status := Done) else d.outbox[k])
            && (s in d'.records.suppliers <==> s in d.records.suppliers || Has(todo, L.CreateSupplier))
            && (s in d'.records.onHold <==>
                Has(todo, L.ApplyHold) || (s in d.records.onHold && !Has(todo, L.ClearHold)))
            && (forall n: int :: d'.records.files[(s, n)] ==
                  if Key(L.AttachEvidence, n) in todo && (s, n) !in d.records.files then 1 else d.records.files[(s, n)])
  {
    hide R.DrainStep;
    if todo != [] {
      var init, last := todo[..|todo| - 1], todo[|todo| - 1];
      forall a: L.Action ensures Has(todo, a) <==> Has(init, a) || last.action == a { HasOneMore(todo, a); }
      assert forall k :: k in todo <==> k in init || k == last;
      assert last !in init;
      ServedDrain(d, read, init, calls, s);
      ServedStep(R.DrainAll(d, true, read, init, calls), read, last, calls(last), s);
    }
  }

  lemma HasOneMore(todo: seq<Key>, a: L.Action)
    requires todo != []
    ensures Has(todo, a) <==> Has(todo[..|todo| - 1], a) || todo[|todo| - 1].action == a
  {
    var init := todo[..|todo| - 1];
    if Has(init, a) {
      var i :| 0 <= i < |init| && init[i].action == a;
      assert todo[i].action == a;
    }
    if Has(todo, a) && todo[|todo| - 1].action != a {
      var i :| 0 <= i < |todo| && todo[i].action == a;
      assert init[i].action == a;
    }
  }

  /* ---- what a run adds ---- */

  lemma ScreeningMeansPacket(e: G.Event, env: G.Environment, ans: G.Answers, c: Case)
    requires env.catalog.Some? && F.Loaded(env.catalog.value) && OnlyPacketsScreen(env.catalog.value)
    requires G.RunGraph(e, env, ans, c).ctx.screening.Some?
    ensures e.eventType == "new_supplier_packet"
  {
    hide G.Visit, G.Verdict, F.Loaded;
    H.GraphIsSound(e, env, ans, c);
    var run := G.RunGraph(e, env, ans, c);
    assert G.RouteOf(e, env, ans.proposal) == Some(run.ctx.route) && "compliance" in run.ctx.route;
    F.RouteIsTheDeclaredOne(env.catalog.value, e.eventType, ans.proposal,
      F.ResolveDepartment(env.catalog, e.department).value);
  }

  /** A dated packet leaves the case past onboarding or asks for the supplier to be created. */
  lemma PacketsCreate(s: L.CaseState, e: L.Event, evidence: Option<J.Json>, t: L.Timing)
    requires e.kind == L.NewSupplierPacket && e.on.Some? && L.Decide(s, e, evidence, t).Decided?
    ensures s.state == L.Onboarding ==>
              L.Emits(s, L.Tick(e, evidence, t), L.CreateSupplier, 1) && L.Decide(s, e, evidence, t).decision.cycle == 1
  {
    hide L.FirstExpiry;
    L.CommandsOf(s, L.Tick(e, evidence, t), L.CreateSupplier);
  }

  /** A file is asked for exactly when a certificate is accepted, under the cycle that certificate opens. */
  lemma AttachesWhenAccepted(s: L.CaseState, tick: L.Tick)
    requires L.WellKept(s) && L.Decision1(s, tick).Decided?
    ensures var s' := L.Advance(s, tick);
            L.Emits(s, tick, L.AttachEvidence, s'.cycle) <==> s'.certificate != s.certificate
  {
    hide Dates.Ordinal, Dates.Parse, Dates.Print, L.FirstExpiry;
    L.CommandsOf(s, tick, L.AttachEvidence);
    L.StepKeeps(s, tick);
    if L.Decision1(s, tick).decision.certificate.Some? && s.certificate.Some? {
      var expiry := L.ExpiryFromEvidence(tick.evidence).value;
      Dates.PrintThenParse(expiry);
    }
  }

  lemma RenewalNeedsACertificate(s: L.CaseState, tick: L.Tick)
    requires L.Decision1(s, tick).Decided?
    ensures L.Emits(s, tick, L.RequestRenewal, L.Advance(s, tick).cycle) ==> s.state == L.Active
  {
    hide Dates.Ordinal, Dates.Parse, Dates.Print, L.FirstExpiry;
    L.CommandsOf(s, tick, L.RequestRenewal);
  }

  /** The open rows after the claims are exactly the newly claimed ones. */
  lemma {:induction false} ClaimsOpenNewRows(c: Case, ws: seq<T.Write>, s: string)
    requires T.OnlyClaims(ws) && (forall w :: w in ws ==> w.supplier == s)
    requires forall k :: k in c.outbox ==> c.outbox[k].status == Done
    ensures var o := T.ApplyAll(c, ws).outbox;
            o.Keys == c.outbox.Keys + T.ClaimedKeys(ws)
            && (forall k :: k in c.outbox ==> o[k] == c.outbox[k])
            && (forall k :: k in T.ClaimedKeys(ws) && k !in c.outbox ==> o[k].status == Pending && o[k].supplier == s)
  {
    T.WritesExtendTheOutbox(c, ws);
    if ws != [] {
      var init, last := ws[..|ws| - 1], ws[|ws| - 1];
      assert last in ws;
      ClaimsOpenNewRows(c, init, s);
      assert forall w :: w in ws <==> w in init || w == last;
      assert T.ClaimedKeys(ws) == T.ClaimedKeys(init) + {last.key};
    } else {
      assert T.ClaimedKeys(ws) == {};
    }
  }

  /* ---- one push ---- */

  /** Nothing open, nothing done. */
  lemma IdleDrain(c: Case, r: E.Records, stream: seq<Key>, calls: Key -> E.Answer)
    requires R.Lists(stream, c.outbox) && forall k :: k in c.outbox ==> c.outbox[k].status == Done
    ensures R.Drained(c, r, stream, calls).outbox == c.outbox && R.Drained(c, r, stream, calls).records == r
  {
    hide R.Todo;
    R.DrainsExactlyTheOpenRows(c.outbox, stream);
    var todo := R.Todo(c.outbox, stream);
    EmptyOrInhabited(todo);
  }

  lemma EmptyOrInhabited(keys: seq<Key>)
    ensures keys == [] || exists k :: k in keys
  {
    if keys != [] {
      assert keys[0] in keys;
    }
  }

  /** Which actions are left to run after a claiming run: those the decision emits, except that a repeated
      creation finds its row done. */
  lemma OpenActions(s: string, c: Case, r: E.Records, tick: L.Tick, after: Case, todo: seq<Key>)
    requires s != "" && Settled(s, c, r) && L.Decision1(LifecycleOf(c), tick).Decided?
    requires var d := L.Decision1(LifecycleOf(c), tick).decision;
             after.outbox.Keys == c.outbox.Keys + Emitted(LifecycleOf(c), tick)
             && (forall k :: k in c.outbox ==> after.outbox[k] == c.outbox[k])
             && (forall k :: k in after.outbox && k !in c.outbox ==>
                 after.outbox[k].status == Pending && after.outbox[k].supplier == s)
    requires forall k :: k in todo <==> k in after.outbox && !C.Settled(after.outbox[k].status)
    ensures forall k :: k in todo <==> k in Emitted(LifecycleOf(c), tick) && k !in c.outbox
    ensures forall k :: k in todo ==> k in after.outbox && after.outbox[k].supplier == s
    ensures var lc := LifecycleOf(c);
            var cycle := L.Advance(lc, tick).cycle;
            (forall a: L.Action :: a != L.CreateSupplier ==> (Has(todo, a) <==> L.Emits(lc, tick, a, cycle)))
            && (L.Emits(lc, tick, L.CreateSupplier, cycle) ==> Has(todo, L.CreateSupplier) || s in r.suppliers)
            && (forall n: int :: Key(L.AttachEvidence, n) in todo <==>
                n == cycle && L.Emits(lc, tick, L.AttachEvidence, cycle))
  {
    hide L.Decision1, L.Emits, L.Spent, Agrees, L.WellKept;
    var lc := LifecycleOf(c);
    var cycle := L.Advance(lc, tick).cycle;
    assert forall k :: k in todo <==> k in Emitted(lc, tick) && k !in c.outbox;
    EmittedIsEmits(lc, tick);
    forall a: L.Action | a != L.CreateSupplier ensures Has(todo, a) <==> L.Emits(lc, tick, a, cycle) {
      if L.Emits(lc, tick, a, cycle) {
        if Key(a, cycle) in c.outbox {
          L.SpentStays(lc, tick, a, cycle);
        }
        assert Key(a, cycle) in todo;
        var i :| 0 <= i < |todo| && todo[i] == Key(a, cycle);
      }
      if Has(todo, a) {
        var i :| 0 <= i < |todo| && todo[i].action == a;
        assert todo[i] in todo;
      }
    }
    if L.Emits(lc, tick, L.CreateSupplier, cycle) && Key(L.CreateSupplier, cycle) !in c.outbox {
      assert Key(L.CreateSupplier, cycle) in todo;
      var i :| 0 <= i < |todo| && todo[i] == Key(L.CreateSupplier, cycle);
    }
    forall n: int
      ensures Key(L.AttachEvidence, n) in todo <==> n == cycle && L.Emits(lc, tick, L.AttachEvidence, cycle)
    {
      if L.Emits(lc, tick, L.AttachEvidence, cycle) && Key(L.AttachEvidence, cycle) in c.outbox {
        L.SpentStays(lc, tick, L.AttachEvidence, cycle);
      }
    }
  }

  /** The command keys a decision names. */
  ghost function Emitted(s: L.CaseState, tick: L.Tick): set<Key> {
    var o := L.Decision1(s, tick);
    if o.Raised? then {} else set c | c in o.decision.commands :: Key(c.action, o.decision.cycle)
  }

  lemma EmittedIsEmits(s: L.CaseState, tick: L.Tick)
    ensures forall k :: k in Emitted(s, tick) <==> L.Emits(s, tick, k.action, k.cycle)
    ensures forall k :: k in Emitted(s, tick) ==> k.cycle == L.Advance(s, tick).cycle
  {
    hide L.Decision1;
  }

  /** A case after the writes of a committing run: advanced, cleared, with one open row per new command. */
  ghost predicate Committed(s: string, c: Case, tick: L.Tick, after: Case) {
    && LifecycleOf(after) == L.Advance(LifecycleOf(c), tick) && after.approval.None?
    && after.policy.Stored? && after.policy.verdict.band == Clear
    && after.outbox.Keys == c.outbox.Keys + Emitted(LifecycleOf(c), tick)
    && (forall k :: k in c.outbox ==> after.outbox[k] == c.outbox[k])
    && (forall k :: k in after.outbox && k !in c.outbox ==>
        after.outbox[k].status == Pending && after.outbox[k].supplier == s)
  }

  lemma CommittedIsCleared(s: string, c: Case, tick: L.Tick, after: Case)
    requires Committed(s, c, tick, after)
    ensures R.Cleared(after)
  {
    hide L.Advance, Emitted;
  }

  /** Draining it finishes every row and brings the records in line with the lifecycle. */
  lemma CommittedDrain(s: string, c: Case, r: E.Records, tick: L.Tick, after: Case, order: seq<Key>,
                       calls: Key -> E.Answer)
    requires s != "" && Settled(s, c, r) && L.Decision1(LifecycleOf(c), tick).Decided? && Committed(s, c, tick, after)
    requires forall k :: Served(calls(k))
    requires R.Lists(order, after.outbox)
    requires c.state != L.Onboarding || s in r.suppliers
             || L.Emits(LifecycleOf(c), tick, L.CreateSupplier, L.Advance(LifecycleOf(c), tick).cycle)
    ensures var d := R.Drained(after, r, order, calls);
            d.outbox.Keys == after.outbox.Keys && (forall k :: k in d.outbox ==> d.outbox[k].status == Done)
            && s in d.records.suppliers
            && forall c' :: LifecycleOf(c') == L.Advance(LifecycleOf(c), tick) ==> Agrees(s, c', d.records)
  {
    hide L.Decision1, L.Advance, L.Emits, L.Spent, L.WellKept, R.Todo, R.DrainAll, Emitted, Agrees, R.Cleared,
         R.LiftsLast, R.Selected, R.Sorted, R.DeadReports;
    var lc := LifecycleOf(c);
    var todo := R.Todo(after.outbox, order);
    CommittedIsCleared(s, c, tick, after);
    R.DrainsExactlyTheOpenRows(after.outbox, order);
    OpenActions(s, c, r, tick, after, todo);
    L.StepKeeps(lc, tick);
    RenewalNeedsACertificate(lc, tick);
    ActiveIsPresent(s, c, r);
    ServedDrain(R.Drain(after.outbox, r, []), after.outbox, todo, calls, s);
    AgreesAfter(s, c, r, tick, R.Drained(after, r, order, calls).records, todo);
  }

  lemma ActiveIsPresent(s: string, c: Case, r: E.Records)
    requires Agrees(s, c, r)
    ensures c.state != L.Onboarding ==> s in r.suppliers
  {
  }

  /** Committing a decision on a clear verdict and draining it keeps the settled agreement. */
  lemma CommitThenDrain(s: string, c: Case, r: E.Records, tick: L.Tick, after: Case, order: seq<Key>,
                        calls: Key -> E.Answer)
    requires s != "" && Settled(s, c, r) && L.Decision1(LifecycleOf(c), tick).Decided? && Committed(s, c, tick, after)
    requires forall k :: Served(calls(k))
    requires R.Lists(order, after.outbox)
    requires c.state != L.Onboarding || s in r.suppliers
             || L.Emits(LifecycleOf(c), tick, L.CreateSupplier, L.Advance(LifecycleOf(c), tick).cycle)
    ensures var d := R.Drained(after, r, order, calls);
            Settled(s, after.(outbox := d.outbox), d.records)
  {
    hide L.Decision1, L.Advance, L.Emits, L.Spent, L.WellKept, R.Drained, Emitted, Agrees;
    CommittedDrain(s, c, r, tick, after, order, calls);
    var d := R.Drained(after, r, order, calls);
    AdvanceKeeps(s, c, r, tick);
    forall k | k in d.outbox && k.action != L.CreateSupplier
      ensures L.Spent(L.Advance(LifecycleOf(c), tick), k.action, k.cycle)
    {
      SpentAfter(s, c, r, tick, k);
    }
    var c' := after.(outbox := d.outbox);
    assert LifecycleOf(c') == L.Advance(LifecycleOf(c), tick);
  }

  lemma AdvanceKeeps(s: string, c: Case, r: E.Records, tick: L.Tick)
    requires Settled(s, c, r)
    ensures L.WellKept(L.Advance(LifecycleOf(c), tick)) && L.Advance(LifecycleOf(c), tick).supplier == s
  {
    hide L.Decision1, L.Advance, L.Emits, L.Spent, L.WellKept, Agrees;
    L.StepKeeps(LifecycleOf(c), tick);
  }

  lemma SpentAfter(s: string, c: Case, r: E.Records, tick: L.Tick, k: Key)
    requires Settled(s, c, r) && k.action != L.CreateSupplier
    requires k in c.outbox || k in Emitted(LifecycleOf(c), tick)
    ensures L.Spent(L.Advance(LifecycleOf(c), tick), k.action, k.cycle)
  {
    hide L.Decision1, L.Advance, L.Emits, L.Spent, L.WellKept, Emitted, Agrees;
    if k in c.outbox {
      L.SpentStays(LifecycleOf(c), tick, k.action, k.cycle);
    } else {
      EmittedIsEmits(LifecycleOf(c), tick);
      L.EmissionSpends(LifecycleOf(c), tick, k.action, k.cycle);
    }
  }

  /** The records a drain of the open actions leaves match the advanced lifecycle. */
  lemma AgreesAfter(s: string, c: Case, r: E.Records, tick: L.Tick, r': E.Records, todo: seq<Key>)
    requires Agrees(s, c, r) && L.WellKept(LifecycleOf(c)) && L.Decision1(LifecycleOf(c), tick).Decided?
    requires c.state != L.Onboarding || s in r.suppliers
             || L.Emits(LifecycleOf(c), tick, L.CreateSupplier, L.Advance(LifecycleOf(c), tick).cycle)
    requires var lc := LifecycleOf(c);
             var cycle := L.Advance(lc, tick).cycle;
             (forall a: L.Action :: a != L.CreateSupplier ==> (Has(todo, a) <==> L.Emits(lc, tick, a, cycle)))
             && (L.Emits(lc, tick, L.CreateSupplier, cycle) ==> Has(todo, L.CreateSupplier) || s in r.suppliers)
             && (forall n: int :: Key(L.AttachEvidence, n) in todo <==>
                 n == cycle && L.Emits(lc, tick, L.AttachEvidence, cycle))
    requires (s in r'.suppliers <==> s in r.suppliers || Has(todo, L.CreateSupplier))
             && (s in r'.onHold <==> Has(todo, L.ApplyHold) || (s in r.onHold && !Has(todo, L.ClearHold)))
             && (forall n: int :: r'.files[(s, n)] ==
                   if Key(L.AttachEvidence, n) in todo && (s, n) !in r.files then 1 else r.files[(s, n)])
    ensures s in r'.suppliers
    ensures forall c' :: LifecycleOf(c') == L.Advance(LifecycleOf(c), tick) ==> Agrees(s, c', r')
  {
    hide L.Decision1, L.Advance, L.Emits;
    var lc := LifecycleOf(c);
    var lc' := L.Advance(lc, tick);
    L.StepKeeps(lc, tick);
    AttachesWhenAccepted(lc, tick);
    forall n: int
      ensures r'.files[(s, n)] ==
                if lc'.certificate.Some? && lc'.cycle - lc'.certificate.value.evidenceVersion < n <= lc'.cycle
                then 1 else 0
    {
      if lc'.certificate == lc.certificate {
        assert lc.certificate.Some? ==> lc'.cycle == lc.cycle;
      }
    }
  }

  /** Nothing in the ERP concerns a supplier no event has named. */
  ghost predicate Untouched(s: string, r: E.Records) {
    s !in r.onHold && forall n: int :: (s, n) !in r.files
  }

  ghost predicate SettledIfAny(s: string, c: Option<Case>, r: E.Records) {
    if c.Some? then Settled(s, c.value, r) else Untouched(s, r)
  }

  /** Claiming an event disturbs nothing that has been settled. */
  lemma ClaimKeepsSettled(s: string, c: Option<Case>, r: E.Records, d: I.Delivery)
    requires SettledIfAny(s, c, r) && d.supplier == s && I.Outcome(c, d).claimed
    ensures I.Claimed(c, d).Some? && Settled(s, I.Claimed(c, d).value, r) && d.eventId in I.Claimed(c, d).value.inbox
  {
    hide L.Spent;
  }

  lemma QuarantineKeepsSettled(s: string, c: Case, r: E.Records, p: N.Push)
    requires Settled(s, c, r) && R.Enumerates(p.order) && p.death.None? && p.eventId in c.inbox
    requires G.End(G.RunGraph(p.event, p.env, p.answers, c)).QuarantineCase?
    ensures var handled := N.Handled(c, p);
            var d := N.DrainOf(handled, r, p);
            Settled(s, handled.(outbox := d.outbox), d.records)
  {
    hide G.RunGraph, R.Drained, L.Spent, L.WellKept, Agrees, H.DecisionOf;
    var run := N.RunOf(c, p);
    H.TerminalsCarryTheirVerdict(p.event, p.env, p.answers, c);
    var w := T.OutcomeWrite(Quarantined, run.ctx.policy);
    assert [w][..0] == [];
    assert T.ApplyAll(c, [w]) == T.Apply(c, w);
    var handled := N.Handled(c, p);
    assert handled.outbox == c.outbox && LifecycleOf(handled) == LifecycleOf(c);
    IdleDrain(handled, r, p.order(handled.outbox.Keys), p.calls);
    var after := handled.(outbox := N.DrainOf(handled, r, p).outbox);
    AgreementIsAboutLifecycle(s, c, after, r);
  }

  lemma AgreementIsAboutLifecycle(s: string, c: Case, c': Case, r: E.Records)
    requires Agrees(s, c, r) && LifecycleOf(c') == LifecycleOf(c)
    ensures Agrees(s, c', r)
  {
  }

  /** The writes of a run that commits leave a committed case. */
  lemma CommitWrites(s: string, c: Case, r: E.Records, p: N.Push, tick: L.Tick)
    requires Settled(s, c, r) && s != "" && p.eventId in c.inbox
    requires PermitsEverything(T.CommandScope(p.env.catalog, p.event.department))
    requires G.End(G.RunGraph(p.event, p.env, p.answers, c)).CommitCommands? && !N.EngineRaises(c, p)
    requires tick == TickOf(c, p)
    ensures L.Decision1(LifecycleOf(c), tick).Decided?
    ensures Committed(s, c, tick, N.Handled(c, p))
  {
    hide G.RunGraph, L.Decide, L.Spent, L.WellKept, Agrees, T.CommandScope, C.Claimed, T.ApplyAll, T.ClaimWrites,
         T.ClaimStep, T.RefusedKeys, T.ClaimedKeys;
    var run := N.RunOf(c, p);
    H.TerminalsCarryTheirVerdict(p.event, p.env, p.answers, c);
    RunKeepsSnapshot(p, c);
    var lc := LifecycleOf(c);
    var d := H.DecisionOf(p.event, p.env, run).decision;
    var scope := T.CommandScope(p.env.catalog, p.event.department);
    var claims := T.ClaimWrites(d.commands, d.cycle, scope);
    T.RunsVisit(p.event, p.env, p.answers, c);
    var ws := T.Writes(p.event, p.env, run);
    T.ClaimingRunEffect(c, d, scope, ws[|ws| - 1].phase, run.ctx.policy);
    T.WritesExtendTheOutbox(c, ws);
    T.ClaimWritesClaim(d.commands, d.cycle, scope);
    L.CommandsNameTheSupplier(lc, tick);
    T.ClaimSuppliers(d.commands, d.cycle, scope, s);
    ClaimsOpenNewRows(c, claims, s);
    EmittedIsEmits(lc, tick);
    assert T.ClaimedKeys(claims) == Emitted(lc, tick);
  }

  ghost function TickOf(c: Case, p: N.Push): L.Tick {
    L.Tick(H.LifecycleEvent(p.event), N.RunOf(c, p).ctx.evidence, K.LifecycleTiming(p.env.policy))
  }

  lemma RunKeepsSnapshot(p: N.Push, c: Case)
    ensures N.RunOf(c, p).ctx.snapshot == c
  {
    hide G.RunGraph;
    H.GraphIsSound(p.event, p.env, p.answers, c);
  }

  /** A clear verdict is carried from a case whose supplier exists, or comes from a packet that asks for it. */
  lemma ClearMeansPresent(s: string, c: Case, r: E.Records, p: N.Push)
    requires SmoothEvent(s, p) && Settled(s, c, r)
    requires G.End(G.RunGraph(p.event, p.env, p.answers, c)).CommitCommands? && !N.EngineRaises(c, p)
    ensures c.state != L.Onboarding || s in r.suppliers
            || L.Emits(LifecycleOf(c), TickOf(c, p), L.CreateSupplier, L.Advance(LifecycleOf(c), TickOf(c, p)).cycle)
  {
    hide G.RunGraph, L.Decide, L.Spent, L.WellKept, Agrees, F.Loaded, OnlyPacketsScreen, T.CommandScope, K.AssessCase,
         L.Emits;
    H.GraphIsSound(p.event, p.env, p.answers, c);
    H.TerminalsCarryTheirVerdict(p.event, p.env, p.answers, c);
    RunKeepsSnapshot(p, c);
    var run := N.RunOf(c, p);
    if run.ctx.screening.None? {
      assert G.Carried(c.policy).band == Clear;
    } else {
      ScreeningMeansPacket(p.event, p.env, p.answers, c);
      PacketsCreate(LifecycleOf(c), H.LifecycleEvent(p.event), run.ctx.evidence, K.LifecycleTiming(p.env.policy));
    }
  }

  /** The conditions that do not depend on the case. */
  ghost predicate SmoothEvent(s: string, p: N.Push) {
    && s != "" && p.event.supplier == s && p.event.on.Some?
    && p.env.catalog.Some? && F.Loaded(p.env.catalog.value) && OnlyPacketsScreen(p.env.catalog.value)
  }

  lemma CommitKeepsSettled(s: string, c: Case, r: E.Records, p: N.Push)
    requires SmoothEvent(s, p) && R.Enumerates(p.order) && (forall k :: Served(p.calls(k))) && p.death.None?
    requires PermitsEverything(T.CommandScope(p.env.catalog, p.event.department))
    requires Settled(s, c, r) && p.eventId in c.inbox
    requires G.End(G.RunGraph(p.event, p.env, p.answers, c)).CommitCommands? && !N.EngineRaises(c, p)
    ensures var handled := N.Handled(c, p);
            var d := N.DrainOf(handled, r, p);
            Settled(s, handled.(outbox := d.outbox), d.records)
  {
    hide G.RunGraph, G.End, L.Decision1, L.Advance, L.Emits, Settled, Committed, N.Handled, N.EngineRaises, SmoothEvent,
         PermitsEverything, T.CommandScope, R.Drained;
    var tick := TickOf(c, p);
    assert s != "" by { SmoothNamesASupplier(s, p); }
    CommitWrites(s, c, r, p, tick);
    ClearMeansPresent(s, c, r, p);
    var handled := N.Handled(c, p);
    CommitThenDrain(s, c, r, tick, handled, p.order(handled.outbox.Keys), p.calls);
  }

  lemma SmoothNamesASupplier(s: string, p: N.Push)
    requires SmoothEvent(s, p)
    ensures s != ""
  {
  }

  /** Every push in smooth conditions keeps the settled agreement. */
  lemma PushKeepsAgreement(s: string, c: Option<Case>, r: E.Records, p: N.Push)
    requires Smooth(s, c, p) && SettledIfAny(s, c, r)
    ensures var a := N.Pushed(c, r, p); SettledIfAny(s, a.case_, a.records)
  {
    hide G.RunGraph, G.End, L.Decision1, Settled, N.Handled, N.EngineRaises, T.CommandScope, R.Drained, F.Loaded;
    var delivery := N.DeliveryOf(p);
    if !I.Outcome(c, delivery).claimed {
      if I.Outcome(c, delivery).reason == I.DuplicateEvent {
        DuplicateKeepsSettled(s, c.value, r, p);
      }
    } else {
      ClaimKeepsSettled(s, c, r, delivery);
      var claimed := I.Claimed(c, delivery).value;
      T.RunsVisit(p.event, p.env, p.answers, claimed);
      H.TerminalsCarryTheirVerdict(p.event, p.env, p.answers, claimed);
      if G.End(G.RunGraph(p.event, p.env, p.answers, claimed)).QuarantineCase? {
        QuarantineKeepsSettled(s, claimed, r, p);
      } else {
        SettledNeverStrays(s, claimed, r, p);
        CommitKeepsSettled(s, claimed, r, p);
      }
    }
  }

  lemma SettledNeverStrays(s: string, c: Case, r: E.Records, p: N.Push)
    requires Settled(s, c, r) && !N.EngineRaises(c, p)
    ensures N.RunOf(c, p).fate.Finished?
  {
    hide G.RunFrom, G.Visit, L.Spent, L.WellKept, Agrees;
    H.HowRunsEnd(p.event, p.env, p.answers, c);
    RunKeepsSnapshot(p, c);
  }

  lemma DuplicateKeepsSettled(s: string, c: Case, r: E.Records, p: N.Push)
    requires Settled(s, c, r) && R.Enumerates(p.order) && p.death.None?
    ensures var d := N.DrainOf(c, r, p); Settled(s, c.(outbox := d.outbox), d.records)
  {
    hide L.Spent, L.WellKept, Agrees, R.Drained;
    IdleDrain(c, r, p.order(c.outbox.Keys), p.calls);
    assert c.(outbox := c.outbox) == c;
  }

  /* ---- all pushes ---- */

  datatype Mission = Mission(case_: Option<Case>, records: E.Records)

  const NOTHING := Mission(None, E.Records({}, {}, multiset{}, multiset{}))

  function After(pushes: seq<N.Push>): Mission
    decreases |pushes|
  {
    if |pushes| == 0 then NOTHING
    else
      var before := After(pushes[..|pushes| - 1]);
      var a := N.Pushed(before.case_, before.records, pushes[|pushes| - 1]);
      Mission(a.case_, a.records)
  }

  /** After any number of pushes in smooth conditions, in any order and with any repetition, the ERP agrees with
      the case: on hold exactly while held, present once onboarded, one file per accepted certificate. */
  lemma {:induction false} ErpAgreesAfterEveryPush(s: string, pushes: seq<N.Push>)
    requires forall i :: 0 <= i < |pushes| ==> Smooth(s, After(pushes[..i]).case_, pushes[i])
    ensures SettledIfAny(s, After(pushes).case_, After(pushes).records)
    ensures After(pushes).case_.Some? ==> Agrees(s, After(pushes).case_.value, After(pushes).records)
    decreases |pushes|
  {
    hide Smooth, N.Pushed;
    if |pushes| > 0 {
      var init := pushes[..|pushes| - 1];
      assert forall i :: 0 <= i < |init| ==> init[..i] == pushes[..i] && init[i] == pushes[i];
      ErpAgreesAfterEveryPush(s, init);
      PushKeepsAgreement(s, After(init).case_, After(init).records, pushes[|pushes| - 1]);
    }
  }
}
