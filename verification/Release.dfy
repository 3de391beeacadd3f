/** Whose commands a department may originate decides whether a released supplier keeps its evidence. */
module Release {

  import opened Basics
  import opened Store
  import A = Agreement
  import C = Commands
  import D = Dates
  import E = Erp
  import F = Fleet
  import H = HoldAndFile
  import J = Json
  import K = Risk
  import L = Lifecycle
  import R = Runner
  import T = Terminals

  /** A settled, held case after the writes of a run that accepted a certificate on a clear verdict. */
  ghost predicate Renewed(s: string, c: Case, r: E.Records, tick: L.Tick, scope: Option<seq<L.Action>>, after: Case,
                          calls: Key -> E.Answer) {
    && s != "" && A.Settled(s, c, r) && c.state == L.Held && (forall k :: A.Served(calls(k)))
    && L.Decision1(LifecycleOf(c), tick).Decided? && L.Decision1(LifecycleOf(c), tick).decision.reason == L.Renewed
    && exists o: T.Write :: o.OutcomeWrite? && o.policy.Some? && o.policy.value.band == Clear
         && after == T.ApplyAll(c, T.ClaimStep(L.Decision1(LifecycleOf(c), tick).decision, scope) + [o])
  }

  /** The rows such a run leaves open: the upload and the release of the new cycle, as far as the scope goes. */
  lemma OpenRows(s: string, c: Case, r: E.Records, tick: L.Tick, scope: Option<seq<L.Action>>, after: Case,
                 calls: Key -> E.Answer)
    requires Renewed(s, c, r, tick, scope, after, calls)
    ensures var n := c.cycle + 1;
            s in r.onHold && (s, n) !in r.files && R.Cleared(after)
            && after.supplier == s && after.state == L.Active && after.cycle == n
            && (H.OpenFor(after, Key(L.AttachEvidence, n), s) <==> T.InScope(scope, L.AttachEvidence))
            && (H.OpenFor(after, Key(L.ClearHold, n), s) <==> T.InScope(scope, L.ClearHold))
            && forall k :: H.OpenFor(after, k, s) && k.action == L.ClearHold ==> k == Key(L.ClearHold, n)
  {
    hide L.Decision1, L.Spent, L.WellKept, T.ApplyAll, T.ClaimWrites, T.RefusedKeys, C.Claimed, T.ClaimStep,
         T.ClaimedKeys;
    var lc, n := LifecycleOf(c), c.cycle + 1;
    var d := L.Decision1(lc, tick).decision;
    var o: T.Write :| o.OutcomeWrite? && o.policy.Some? && o.policy.value.band == Clear
                      && after == T.ApplyAll(c, T.ClaimStep(d, scope) + [o]);
    RenewalOfAHeldCase(lc, tick);
    T.ClaimingRunEffect(c, d, scope, o.phase, o.policy);
    T.WritesExtendTheOutbox(c, T.ClaimStep(d, scope) + [o]);
    RenewalClaims(s, c, r, tick, scope);
    NewKeys(s, c, r, tick);
    assert (s, n) !in r.files by { assert r.files[(s, n)] == 0; }
  }

  /** What accepting a certificate for a held supplier claims. */
  lemma RenewalClaims(s: string, c: Case, r: E.Records, tick: L.Tick, scope: Option<seq<L.Action>>)
    requires s != "" && A.Settled(s, c, r) && c.state == L.Held
    requires L.Decision1(LifecycleOf(c), tick).Decided?
    requires L.Decision1(LifecycleOf(c), tick).decision.reason == L.Renewed
    ensures var d, n := L.Decision1(LifecycleOf(c), tick).decision, c.cycle + 1;
            var claims := T.ClaimWrites(d.commands, d.cycle, scope);
            var rows := T.ApplyAll(c, claims).outbox;
            rows.Keys == c.outbox.Keys + T.ClaimedKeys(claims)
            && (forall k :: k in c.outbox ==> rows[k] == c.outbox[k])
            && (forall k :: k in T.ClaimedKeys(claims) ==> k.cycle == n)
            && (Key(L.AttachEvidence, n) in T.ClaimedKeys(claims) <==> T.InScope(scope, L.AttachEvidence))
            && (Key(L.ClearHold, n) in T.ClaimedKeys(claims) <==> T.InScope(scope, L.ClearHold))
            && forall k :: k in T.ClaimedKeys(claims) && k !in c.outbox ==>
                 rows[k].status == Pending && rows[k].supplier == s
  {
    hide L.Decision1, L.Spent, L.WellKept, A.Agrees, T.ApplyAll, T.ClaimWrites, T.RefusedKeys, C.Claimed;
    var lc := LifecycleOf(c);
    var d := L.Decision1(lc, tick).decision;
    RenewalOfAHeldCase(lc, tick);
    T.ClaimWritesClaim(d.commands, d.cycle, scope);
    L.CommandsNameTheSupplier(lc, tick);
    T.ClaimSuppliers(d.commands, d.cycle, scope, s);
    A.ClaimsOpenNewRows(c, T.ClaimWrites(d.commands, d.cycle, scope), s);
    L.CommandsOf(lc, tick, L.AttachEvidence);
    L.CommandsOf(lc, tick, L.ClearHold);
  }

  lemma RenewalOfAHeldCase(s: L.CaseState, tick: L.Tick)
    requires L.Decision1(s, tick).Decided? && L.Decision1(s, tick).decision.reason == L.Renewed
    ensures L.Decision1(s, tick).decision.cycle == s.cycle + 1 && L.Decision1(s, tick).decision.state == L.Active
  {
    hide L.ExpiryFromEvidence, L.StoredExpiry;
  }

  /** The keys of the new cycle are new. */
  lemma NewKeys(s: string, c: Case, r: E.Records, tick: L.Tick)
    requires A.Settled(s, c, r) && c.state == L.Held
    ensures Key(L.AttachEvidence, c.cycle + 1) !in c.outbox && Key(L.ClearHold, c.cycle + 1) !in c.outbox
  {
  }

  /** With every call served, a certificate accepted for a held supplier lifts the hold exactly when the department
      may originate the release, and files the certificate exactly when it may originate the upload. A released
      supplier lacks its file exactly when it may do the one and not the other. */
  lemma ScopeDecidesTheRelease(s: string, c: Case, r: E.Records, tick: L.Tick, scope: Option<seq<L.Action>>,
                               after: Case,
                               order: seq<Key>, calls: Key -> E.Answer)
    requires Renewed(s, c, r, tick, scope, after, calls) && R.Lists(order, after.outbox)
    ensures var records := R.Drained(after, r, order, calls).records;
            (s !in records.onHold <==> T.InScope(scope, L.ClearHold))
            && ((s, c.cycle + 1) in records.files <==> T.InScope(scope, L.AttachEvidence))
    ensures H.Bare(R.Drained(after, r, order, calls).records, s, c.cycle + 1) <==>
              T.InScope(scope, L.ClearHold) && !T.InScope(scope, L.AttachEvidence)
  {
    hide Renewed, R.Drained, R.Cleared, L.Decision1;
    var n := c.cycle + 1;
    OpenRows(s, c, r, tick, scope, after, calls);
    CallsAreServed(s, c, r, tick, scope, after, calls);
    H.HoldAndFileExactly(after, r, order, calls, s, n);
    assert H.AppliedFor(after, calls, L.ClearHold, s) <==> T.InScope(scope, L.ClearHold) by {
      if T.InScope(scope, L.ClearHold) {
        assert H.OpenFor(after, Key(L.ClearHold, n), s) && calls(Key(L.ClearHold, n)).applied;
      }
    }
  }

  lemma CallsAreServed(s: string, c: Case, r: E.Records, tick: L.Tick, scope: Option<seq<L.Action>>, after: Case,
                       calls: Key -> E.Answer)
    requires Renewed(s, c, r, tick, scope, after, calls)
    ensures forall k :: A.Served(calls(k))
  {
  }

  /* ---- the department of the shipped catalog that does ---- */

  /** The catalog's agents, its routes, and its departments as shipped. */
  function Shipped(): F.Catalog {
    F.Catalog(
      [F.Agent("coordinator", false), F.Agent("evidence", true), F.Agent("compliance", true)],
      map["new_supplier_packet" := ["evidence", "compliance"], "certificate_received" := ["evidence"],
          "renewal_due" := [], "evidence_overdue" := []],
      map["procurement" := F.Scope(["evidence", "compliance"],
                                   [L.CreateSupplier, L.AttachEvidence, L.RequestRenewal, L.ApplyHold, L.ClearHold]),
          "compliance" := F.Scope(["evidence", "compliance"], [L.ApplyHold, L.ClearHold]),
          "finance" := F.Scope([], [])],
      Some("procurement"))
  }

  /** It passes the loader; an event of its compliance department may have evidence extracted; and of the commands of
      a release that department may originate the release alone. */
  lemma ComplianceMayReleaseBare()
    ensures F.Loaded(Shipped())
    ensures F.ValidateRoute(Some(Shipped()), "certificate_received", ["evidence"], "compliance")
            == F.Routed(["evidence"])
    ensures var scope := T.CommandScope(Some(Shipped()), "compliance");
            T.InScope(scope, L.ClearHold) && !T.InScope(scope, L.AttachEvidence)
  {
    ShippedIsLoaded();
    ShippedRoutes();
    hide F.Loaded, F.ValidateRoute;
    assert L.AttachEvidence !in [L.ApplyHold, L.ClearHold] && L.ClearHold in [L.ApplyHold, L.ClearHold];
  }

  lemma ShippedAgents()
    ensures F.RoutableIds(Shipped().agents) == ["evidence", "compliance"]
  {
    var agents := Shipped().agents;
    assert agents[1..][1..] == [agents[2]] && agents[1..][0] == agents[1];
    assert F.RoutableIds([agents[2]]) == ["compliance"];
    assert F.RoutableIds(agents[1..]) == ["evidence", "compliance"];
  }

  lemma ShippedIsLoaded()
    ensures F.Loaded(Shipped())
  {
    ShippedAgents();
  }

  lemma ShippedRoutes()
    ensures F.ValidateRoute(Some(Shipped()), "certificate_received", ["evidence"], "compliance")
            == F.Routed(["evidence"])
  {
    ShippedAgents();
    assert ["evidence"][..0] == [] && Dedupe(["evidence"]) == ["evidence"];
    assert F.Keep(["compliance"], ["evidence"]) == [];
    assert ["evidence", "compliance"][1..] == ["compliance"];
  }

  /** So whenever a certificate is accepted for a held supplier by way of that department, with every call served,
      the supplier comes off hold with no file. */
  lemma ComplianceReleasesBare(s: string, c: Case, r: E.Records, tick: L.Tick, after: Case, order: seq<Key>,
                               calls: Key -> E.Answer)
    requires Renewed(s, c, r, tick, T.CommandScope(Some(Shipped()), "compliance"), after, calls)
             && R.Lists(order, after.outbox)
    ensures H.Bare(R.Drained(after, r, order, calls).records, s, c.cycle + 1)
  {
    hide Renewed, Shipped, H.Bare;
    ComplianceMayReleaseBare();
    ScopeDecidesTheRelease(s, c, r, tick, T.CommandScope(Some(Shipped()), "compliance"), after, order, calls);
  }

  /** A certificate that names one expiry. */
  function Reading(expiry: D.CalendarDate): J.Json {
    J.Object(map["fields" := J.List([J.Object(map["name" := J.Str(L.EXPIRY_FIELD),
      "value" := J.Str(D.Print(expiry))])])])
  }

  lemma ReadingReads(expiry: D.CalendarDate)
    ensures L.ExpiryFromEvidence(Some(Reading(expiry))) == Some(expiry) && !L.Unlistable(Some(Reading(expiry)))
  {
    hide D.Print, D.Parse;
    D.PrintThenParse(expiry);
  }

  /** A held supplier with one certificate on file. */
  function HeldCase(s: string, expiry: D.CalendarDate): Case {
    NoCase(s).(version := 3, state := L.Held, cycle := 1,
      certificate := Some(L.Certificate(D.Print(expiry), 1, J.Null, expiry)))
  }

  function HeldRecords(s: string): E.Records { E.Records({s}, {s}, multiset{(s, 1)}, multiset{}) }

  lemma HeldIsSettled(s: string, expiry: D.CalendarDate)
    ensures A.Settled(s, HeldCase(s, expiry), HeldRecords(s))
  {
    hide D.Print, D.Parse;
    D.PrintThenParse(expiry);
  }

  /** A concrete input: such a supplier, a certificate with a later expiry sent in by the compliance department, and
      an ERP that serves every call. */
  lemma ComplianceWitness(s: string, expiry: D.CalendarDate, later: D.CalendarDate)
    returns (c: Case, r: E.Records, tick: L.Tick, after: Case, order: seq<Key>, calls: Key -> E.Answer)
    requires s != "" && D.Before(expiry, later)
    ensures Renewed(s, c, r, tick, T.CommandScope(Some(Shipped()), "compliance"), after, calls)
            && R.Lists(order, after.outbox)
    ensures H.Bare(R.Drained(after, r, order, calls).records, s, c.cycle + 1)
  {
    hide D.Ordinal, D.Parse, D.Print, Shipped, Reading, A.Settled, H.Bare, T.ApplyAll, L.ExpiryFromEvidence,
         L.Unlistable;
    c, r := HeldCase(s, expiry), HeldRecords(s);
    tick := L.Tick(L.Event(L.CertificateReceived, s, Some(later)), Some(Reading(later)), L.Timing(0, 0));
    calls := (k: Key) => E.Answer(true, true, true, 200, true);
    ReadingReads(later);
    D.PrintThenParse(expiry);
    D.OrderIsOrdinalOrder(expiry, later);
    HeldIsSettled(s, expiry);
    var scope := T.CommandScope(Some(Shipped()), "compliance");
    var d := L.Decision1(LifecycleOf(c), tick).decision;
    var o := T.OutcomeWrite(Committed, Some(K.Verdict("policy", 1, 0.0, Clear, [], [])));
    after := T.ApplyAll(c, T.ClaimStep(d, scope) + [o]);
    order := Listed(after.outbox.Keys);
    ComplianceReleasesBare(s, c, r, tick, after, order, calls);
  }

  /** Some order of a set of rows. */
  ghost function Listed(keys: set<Key>): (order: seq<Key>)
    ensures R.NoRepeats(order) && forall k :: k in order <==> k in keys
  {
    if keys == {} then []
    else
      var k :| k in keys;
      [k] + Listed(keys - {k})
  }
}
