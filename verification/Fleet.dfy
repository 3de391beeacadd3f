/** The fleet catalog and the routing policy derived from it: a model proposes agents, the catalog decides
    (app/catalog.py, app/policy.py). */
module Fleet {

  import opened Basics
  import L = Lifecycle

  datatype Agent = Agent(id: string, routable: bool)

  datatype Scope = Scope(permittedAgents: seq<string>, permittedCommands: seq<L.Action>)

  datatype Catalog = Catalog(agents: seq<Agent>, eventRoutes: map<string, seq<string>>,
                             departments: map<string, Scope>, legacyDepartment: Option<string>)

  const CLOCK_EVENTS := {"renewal_due", "evidence_overdue"}

  datatype Refusal =
    | CatalogUnavailable | UnknownEventType | UnknownAgent | UnknownDepartment
    | DepartmentForbidsAgent | RequiredAgentForbidden | EmptyRoute

  datatype Routing = Routed(route: seq<string>) | Refused(reason: Refusal)

  /** Routable agent ids in declaration order, which is the canonical order. */
  function RoutableIds(agents: seq<Agent>): seq<string> {
    if agents == [] then []
    else (if agents[0].routable then [agents[0].id] else []) + RoutableIds(agents[1..])
  }

  /** The checks a catalog has passed once it is loaded. */
  ghost predicate Loaded(c: Catalog) {
    var known := RoutableIds(c.agents);
    && (forall i, j :: 0 <= i < j < |c.agents| ==> c.agents[i].id != c.agents[j].id)
    && (forall i, j :: 0 <= i < |known| && 0 <= j < |known| && known[i] == "evidence" && known[j] == "compliance" ==>
        i < j)
    && (forall e :: e in c.eventRoutes ==>
          (forall a :: a in c.eventRoutes[e] ==> a in known) && (e in CLOCK_EVENTS ==> c.eventRoutes[e] == []))
    && (forall e :: e in CLOCK_EVENTS ==> e in c.eventRoutes)
    && (forall d :: d in c.departments ==> forall a :: a in c.departments[d].permittedAgents ==> a in known)
    && (c.legacyDepartment.Some? ==> c.legacyDepartment.value in c.departments)
  }

  /** An event's own department, or the catalog's grandfathered one; None is a refusal. */
  function ResolveDepartment(c: Option<Catalog>, department: string): Option<string> {
    if department != "" then Some(department)
    else if c.None? then None
    else c.value.legacyDepartment
  }

  function Keep(s: seq<string>, among: seq<string>): seq<string> {
    if s == [] then []
    else (if s[0] in among then [s[0]] else []) + Keep(s[1..], among)
  }

  function ValidateRoute(c: Option<Catalog>, eventType: string, proposed: seq<string>, department: string): Routing {
    if c.None? then Refused(CatalogUnavailable)
    else
      var known := RoutableIds(c.value.agents);
      if eventType !in c.value.eventRoutes then Refused(UnknownEventType)
      else
        var allowed := c.value.eventRoutes[eventType];
        var requested := Dedupe(proposed);
        if exists a :: a in requested && a !in known then Refused(UnknownAgent)
        else if department !in c.value.departments then Refused(UnknownDepartment)
        else
          var scope := c.value.departments[department].permittedAgents;
          if exists a :: a in requested && a !in scope then Refused(DepartmentForbidsAgent)
          else if exists a :: a in allowed && a !in scope then Refused(RequiredAgentForbidden)
          else if allowed != [] && requested == [] then Refused(EmptyRoute)
          else Routed(Keep(known, allowed))
  }

  /** Proposed agents that policy would not run. */
  function Dropped(proposed: seq<string>, route: seq<string>): seq<string> {
    Without(Dedupe(proposed), route)
  }

  /** Agents policy runs although nobody proposed them. */
  function Added(proposed: seq<string>, route: seq<string>): seq<string> {
    Without(route, proposed)
  }

  function Without(s: seq<string>, among: seq<string>): (r: seq<string>)
    ensures forall x :: x in r <==> x in s && x !in among
  {
    if s == [] then []
    else
      assert s == [s[0]] + s[1..];
      (if s[0] in among then [] else [s[0]]) + Without(s[1..], among)
  }

  /* ---- what an accepted route is ---- */

  ghost predicate Distinct(s: seq<string>) {
    forall i, j :: 0 <= i < j < |s| ==> s[i] != s[j]
  }

  /** `x` stands before `y` somewhere in `s`. */
  ghost predicate Precedes(s: seq<string>, x: string, y: string) {
    exists p, q :: 0 <= p < q < |s| && s[p] == x && s[q] == y
  }

  /** `r` lists some elements of `s` in the order they have there. */
  ghost predicate InOrderOf(r: seq<string>, s: seq<string>) {
    forall i, j :: 0 <= i < j < |r| ==> Precedes(s, r[i], r[j])
  }

  lemma PrecedesInFront(s: seq<string>, x: string, y: string)
    requires s != []
    ensures Precedes(s[1..], x, y) ==> Precedes(s, x, y)
    ensures x == s[0] && y in s[1..] ==> Precedes(s, x, y)
  {
    if Precedes(s[1..], x, y) {
      var p, q :| 0 <= p < q < |s[1..]| && s[1..][p] == x && s[1..][q] == y;
      assert s[p + 1] == x && s[q + 1] == y;
    }
    if x == s[0] && y in s[1..] {
      var q :| 0 <= q < |s[1..]| && s[1..][q] == y;
      assert s[0] == x && s[q + 1] == y;
    }
  }

  lemma {:induction false} KeepIsExact(s: seq<string>, among: seq<string>)
    ensures forall x :: x in Keep(s, among) <==> x in s && x in among
  {
    if s != [] {
      KeepIsExact(s[1..], among);
      assert forall x :: x in s <==> x == s[0] || x in s[1..];
    }
  }

  lemma {:induction false} KeepIsInOrder(s: seq<string>, among: seq<string>)
    ensures InOrderOf(Keep(s, among), s)
  {
    hide Precedes;
    if s != [] {
      var rest, r := Keep(s[1..], among), Keep(s, among);
      KeepIsInOrder(s[1..], among);
      KeepIsExact(s[1..], among);
      assert r == rest || (r == [s[0]] + rest);
      forall i, j | 0 <= i < j < |r| ensures Precedes(s, r[i], r[j]) {
        assert r[j] in rest;
        if r == rest || i > 0 {
          assert Precedes(s[1..], r[i], r[j]);
        }
        PrecedesInFront(s, r[i], r[j]);
      }
    }
  }

  lemma {:induction false} RoutableIdsAreDistinct(agents: seq<Agent>)
    requires forall i, j :: 0 <= i < j < |agents| ==> agents[i].id != agents[j].id
    ensures Distinct(RoutableIds(agents))
    ensures forall x :: x in RoutableIds(agents) ==> exists i :: 0 <= i < |agents| && agents[i].id == x
  {
    if agents != [] {
      RoutableIdsAreDistinct(agents[1..]);
      forall x | x in RoutableIds(agents)
        ensures exists i :: 0 <= i < |agents| && agents[i].id == x
      {
        if x in RoutableIds(agents[1..]) {
          var i :| 0 <= i < |agents[1..]| && agents[1..][i].id == x;
          assert agents[i + 1].id == x;
        } else {
          assert agents[0].id == x;
        }
      }
      assert agents[0].id !in RoutableIds(agents[1..]);
    }
  }

  lemma OrderedPartOfDistinct(r: seq<string>, s: seq<string>)
    requires InOrderOf(r, s) && Distinct(s)
    ensures Distinct(r)
  {
  }

  /** Whatever was proposed, an accepted route is the declared one: the same agents, in canonical order,
      without repeats and inside the department; the recorded differences account for the proposal. */
  lemma RouteIsTheDeclaredOne(c: Catalog, eventType: string, proposed: seq<string>, department: string)
    requires Loaded(c)
    requires ValidateRoute(Some(c), eventType, proposed, department).Routed?
    ensures eventType in c.eventRoutes && department in c.departments
    ensures var route := ValidateRoute(Some(c), eventType, proposed, department).route;
            (forall a :: a in route <==> a in c.eventRoutes[eventType])
            && InOrderOf(route, RoutableIds(c.agents)) && Distinct(route)
            && (forall a :: a in route || a in proposed ==> a in c.departments[department].permittedAgents)
            && (forall a :: a in route <==>
                  (a in proposed && a !in Dropped(proposed, route)) || a in Added(proposed, route))
  {
    var known := RoutableIds(c.agents);
    var allowed := c.eventRoutes[eventType];
    KeepIsExact(known, allowed);
    KeepIsInOrder(known, allowed);
    RoutableIdsAreDistinct(c.agents);
    OrderedPartOfDistinct(Keep(known, allowed), known);
    assert forall a :: a in proposed ==> a in Dedupe(proposed);
  }

  lemma ProposalDoesNotChooseTheRoute(c: Catalog, eventType: string, p: seq<string>, q: seq<string>, dp: string,
                                      dq: string)
    requires ValidateRoute(Some(c), eventType, p, dp).Routed? && ValidateRoute(Some(c), eventType, q, dq).Routed?
    ensures ValidateRoute(Some(c), eventType, p, dp) == ValidateRoute(Some(c), eventType, q, dq)
  {
  }

  /** Evidence runs before compliance in every route that has both. */
  lemma EvidenceComesFirst(c: Catalog, eventType: string, proposed: seq<string>, department: string, i: nat, j: nat)
    requires Loaded(c) && ValidateRoute(Some(c), eventType, proposed, department).Routed?
    requires var r := ValidateRoute(Some(c), eventType, proposed, department).route;
             i < |r| && j < |r| && r[i] == "evidence" && r[j] == "compliance"
    ensures i < j
  {
    RouteIsTheDeclaredOne(c, eventType, proposed, department);
  }

  /* ---- when a route is accepted ---- */

  /** The routable agents are the declared ones that are, in the order of their declaration. */
  lemma {:induction false} RoutableExactly(agents: seq<Agent>)
    ensures forall x :: x in RoutableIds(agents) <==>
              exists i :: 0 <= i < |agents| && agents[i].routable && agents[i].id == x
    ensures forall i, j :: 0 <= i < j < |agents| && agents[i].routable && agents[j].routable ==>
              Precedes(RoutableIds(agents), agents[i].id, agents[j].id)
  {
    hide Precedes;
    if agents != [] {
      var rest, ids := RoutableIds(agents[1..]), RoutableIds(agents);
      RoutableExactly(agents[1..]);
      assert forall i :: 0 < i < |agents| ==> agents[i] == agents[1..][i - 1];
      forall x ensures x in ids <==> exists i :: 0 <= i < |agents| && agents[i].routable && agents[i].id == x {
        if x in rest {
          var i :| 0 <= i < |agents[1..]| && agents[1..][i].routable && agents[1..][i].id == x;
          assert agents[i + 1].routable && agents[i + 1].id == x;
        }
        if i :| 0 <= i < |agents| && agents[i].routable && agents[i].id == x {
          if i > 0 { assert agents[1..][i - 1].id == x; }
        }
      }
      forall i, j | 0 <= i < j < |agents| && agents[i].routable && agents[j].routable
        ensures Precedes(ids, agents[i].id, agents[j].id)
      {
        assert agents[j].id in rest by { assert agents[1..][j - 1].routable; }
        if i > 0 { assert Precedes(rest, agents[1..][i - 1].id, agents[1..][j - 1].id); }
        if agents[0].routable {
          assert ids == [agents[0].id] + rest && ids[1..] == rest;
          PrecedesInFront(ids, agents[i].id, agents[j].id);
        } else {
          assert ids == rest;
        }
      }
    }
  }

  /** A proposal is accepted exactly when the event type and the department are declared, it names only routable agents
      within the department, the declared route stays within it too, and something was proposed if anything is to
      run. */
  lemma RoutedExactly(c: Catalog, eventType: string, proposed: seq<string>, department: string)
    ensures ValidateRoute(Some(c), eventType, proposed, department).Routed? <==>
              eventType in c.eventRoutes && department in c.departments
              && (forall a :: a in proposed ==>
                    a in RoutableIds(c.agents) && a in c.departments[department].permittedAgents)
              && (forall a :: a in c.eventRoutes[eventType] ==> a in c.departments[department].permittedAgents)
              && (c.eventRoutes[eventType] == [] || proposed != [])
  {
    SomethingProposed(proposed);
  }

  lemma SomethingProposed(proposed: seq<string>)
    ensures Dedupe(proposed) == [] <==> proposed == []
  {
    if proposed != [] { assert proposed[0] in proposed && proposed[0] in Dedupe(proposed); }
    if Dedupe(proposed) != [] { assert Dedupe(proposed)[0] in Dedupe(proposed); }
  }

  /** A refusal gives the first of its reasons that holds. */
  lemma RefusedExactly(c: Catalog, eventType: string, proposed: seq<string>, department: string)
    ensures var r := ValidateRoute(Some(c), eventType, proposed, department);
            var typed := eventType in c.eventRoutes;
            var known := forall a :: a in proposed ==> a in RoutableIds(c.agents);
            var declared := department in c.departments;
            var within := declared ==> forall a :: a in proposed ==> a in c.departments[department].permittedAgents;
            var required := typed && declared ==>
              forall a :: a in c.eventRoutes[eventType] ==> a in c.departments[department].permittedAgents;
            (r == Refused(UnknownEventType) <==> !typed) && (r == Refused(UnknownAgent) <==> typed && !known)
            && (r == Refused(UnknownDepartment) <==> typed && known && !declared)
            && (r == Refused(DepartmentForbidsAgent) <==> typed && known && declared && !within)
            && (r == Refused(RequiredAgentForbidden) <==> typed && known && declared && within && !required)
            && (r == Refused(EmptyRoute) <==>
                  typed && known && declared && within && required && c.eventRoutes[eventType] != [] && proposed == [])
  {
    hide RoutableIds;
    SomethingProposed(proposed);
  }

  /** Without a catalog nothing is routed, and an event without a department only by way of the legacy one. */
  lemma ResolvedExactly(c: Option<Catalog>, eventType: string, proposed: seq<string>, department: string)
    ensures c.None? ==> ValidateRoute(c, eventType, proposed, department).Refused?
    ensures department != "" ==> ResolveDepartment(c, department) == Some(department)
    ensures ResolveDepartment(c, "").Some? <==> c.Some? && c.value.legacyDepartment.Some?
    ensures ResolveDepartment(c, "").Some? ==> ResolveDepartment(c, "") == c.value.legacyDepartment
  {
  }
}
