/** Claiming inbound events: duplicate detection, redispatch and version numbering (app/state/firestore.py). */
module Inbox {

  import opened Basics
  import opened Store

  datatype ClaimReason = Initial | Redispatch | DuplicateEvent | StaleEvent

  datatype ClaimResult = ClaimResult(claimed: bool, version: nat, reason: ClaimReason)

  /** One delivery of an event: its id, the version it was written against if any, and the supplier it names. */
  datatype Delivery = Delivery(eventId: string, expected: Option<int>, supplier: string)

  function Outcome(c: Option<Case>, d: Delivery): ClaimResult {
    var current := if c.Some? then c.value.version else 0;
    if c.Some? && d.eventId in c.value.inbox then
      var row := c.value.inbox[d.eventId];
      if row.dispatched then ClaimResult(false, current, DuplicateEvent)
      else ClaimResult(true, row.version, Redispatch)
    else if d.expected.Some? && d.expected.value != current then ClaimResult(false, current, StaleEvent)
    else ClaimResult(true, current + 1, Initial)
  }

  /** The case after the claim; only an initial claim changes what is modelled of it. */
  function Claimed(c: Option<Case>, d: Delivery): Option<Case> {
    if Outcome(c, d).reason != Initial then c
    else
      var base := if c.Some? then c.value else NoCase(d.supplier);
      Some(base.(version := base.version + 1, phase := Processing,
                 inbox := base.inbox[d.eventId := InboxRow(base.version + 1, false)]))
  }

  function Dispatched(c: Case, eventId: string): Case
    requires eventId in c.inbox
  {
    c.(inbox := c.inbox[eventId := c.inbox[eventId].(dispatched := true)])
  }

  function Find(cases: map<string, Case>, id: string): Option<Case> {
    if id in cases then Some(cases[id]) else None
  }

  function Put(cases: map<string, Case>, id: string, c: Option<Case>): map<string, Case> {
    if c.Some? then cases[id := c.value] else cases
  }

  method ClaimEvent(db: Firestore, caseId: string, d: Delivery) returns (r: ClaimResult)
    modifies db
    ensures r == Outcome(Find(old(db.cases), caseId), d)
    ensures db.cases == Put(old(db.cases), caseId, Claimed(Find(old(db.cases), caseId), d))
  {
    var current := if caseId in db.cases then db.cases[caseId].version else 0;
    if caseId in db.cases && d.eventId in db.cases[caseId].inbox {
      var row := db.cases[caseId].inbox[d.eventId];
      assert db.cases == db.cases[caseId := db.cases[caseId]];
      if row.dispatched {
        return ClaimResult(false, current, DuplicateEvent);
      }
      return ClaimResult(true, row.version, Redispatch);
    }
    if d.expected.Some? && d.expected.value != current {
      assert caseId in db.cases ==> db.cases == db.cases[caseId := db.cases[caseId]];
      return ClaimResult(false, current, StaleEvent);
    }
    var version := current + 1;
    var c := if caseId in db.cases then db.cases[caseId] else NoCase(d.supplier);
    c := c.(version := version, phase := Processing, inbox := c.inbox[d.eventId := InboxRow(version, false)]);
    db.cases := db.cases[caseId := c];
    r := ClaimResult(true, version, Initial);
  }

  method MarkDispatched(db: Firestore, caseId: string, eventId: string)
    requires caseId in db.cases && eventId in db.cases[caseId].inbox
    modifies db
    ensures db.cases == old(db.cases)[caseId := Dispatched(old(db.cases[caseId]), eventId)]
  {
    var c := db.cases[caseId];
    db.cases := db.cases[caseId := c.(inbox := c.inbox[eventId := c.inbox[eventId].(dispatched := true)])];
  }

  /* ---- what a claim answers and leaves ---- */

  /** A claim succeeds exactly for an event that has not been dispatched and, if it is new, expects the version that the
      case has; it answers with the version recorded for the event, or else with the case's own. */
  lemma ClaimsExactly(c: Option<Case>, d: Delivery)
    ensures var r, after := Outcome(c, d), Claimed(c, d);
            var known := c.Some? && d.eventId in c.value.inbox;
            var current := if c.Some? then c.value.version else 0;
            (r.claimed <==> if known then !c.value.inbox[d.eventId].dispatched
                            else d.expected.None? || d.expected == Some(current))
            && (r.claimed ==> after.Some? && d.eventId in after.value.inbox
                              && after.value.inbox[d.eventId] == InboxRow(r.version, false))
            && (!r.claimed ==> r.version == current)
            && (r.reason == Redispatch <==> r.claimed && known) && (r.reason == Initial <==> r.claimed && !known)
            && (r.reason == DuplicateEvent <==> !r.claimed && known)
  {
  }

  /** A new event raises the version, puts the case to processing and is noted in the inbox; everything else about the
      case stays, or is that of a case nothing is known of but the supplier. No other claim changes anything. */
  lemma ClaimsKeepTheRest(c: Option<Case>, d: Delivery)
    ensures var after := Claimed(c, d);
            (Outcome(c, d).reason != Initial ==> after == c)
            && (Outcome(c, d).reason == Initial ==>
                  after.Some? && after.value.phase == Processing
                  && (c.Some? ==> after.value.version == c.value.version + 1
                                  && after.value.inbox.Keys == c.value.inbox.Keys + {d.eventId}
                                  && (forall e :: e in c.value.inbox ==> after.value.inbox[e] == c.value.inbox[e])
                                  && after.value.(version := c.value.version, phase := c.value.phase,
                                                  inbox := c.value.inbox) == c.value)
                  && (c.None? ==> after.value.version == 1 && after.value.inbox.Keys == {d.eventId}
                                  && after.value.supplier == d.supplier && after.value.outbox == map[]
                                  && after.value.policy == NoPolicy && after.value.approval.None?
                                  && after.value.certificate.None?))
  {
  }

  /** A mark changes nothing about the case but that one event counts as dispatched. */
  lemma MarksKeepTheRest(c: Case, eventId: string)
    requires eventId in c.inbox
    ensures var after := Dispatched(c, eventId);
            after.inbox.Keys == c.inbox.Keys && after.(inbox := c.inbox) == c
            && after.inbox[eventId] == InboxRow(c.inbox[eventId].version, true)
            && forall e :: e in c.inbox && e != eventId ==> after.inbox[e] == c.inbox[e]
  {
  }

  /* ---- numbering ---- */

  /** Recorded versions are exactly 1 .. case version, each used by one event. */
  ghost predicate Numbered(c: Case) {
    (forall e :: e in c.inbox ==> 1 <= c.inbox[e].version <= c.version)
    && (forall e, f :: e in c.inbox && f in c.inbox && c.inbox[e].version == c.inbox[f].version ==> e == f)
    && (forall v: nat :: 1 <= v <= c.version ==> HasEvent(c, v))
  }

  ghost predicate HasEvent(c: Case, v: nat) {
    exists e :: e in c.inbox && c.inbox[e].version == v
  }

  /** The things that happen to a case's inbox: deliveries, dispatch marks, and writes of other parts of the
      document, which may change anything but the version and the inbox. */
  datatype Step = Deliver(d: Delivery) | Mark(eventId: string) | Elsewhere(rest: Case)

  function Next(c: Option<Case>, s: Step): Option<Case> {
    match s
    case Deliver(d) => Claimed(c, d)
    case Mark(e) => if c.Some? && e in c.value.inbox then Some(Dispatched(c.value, e)) else c
    case Elsewhere(rest) => if c.Some? then Some(rest.(version := c.value.version, inbox := c.value.inbox)) else c
  }

  function Run(steps: seq<Step>): Option<Case> {
    if steps == [] then None else Next(Run(steps[..|steps| - 1]), steps[|steps| - 1])
  }

  /** Nothing recorded in the inbox is lost or changed, except that an event may become dispatched. */
  lemma StepExtends(c: Option<Case>, s: Step)
    requires c.Some?
    ensures Next(c, s).Some? && c.value.version <= Next(c, s).value.version
    ensures forall e :: e in c.value.inbox && c.value.version >= c.value.inbox[e].version ==>
              e in Next(c, s).value.inbox
              && Next(c, s).value.inbox[e].version == c.value.inbox[e].version
              && (c.value.inbox[e].dispatched ==> Next(c, s).value.inbox[e].dispatched)
  {
  }

  lemma ClaimKeepsNumbering(c: Case, e: string)
    requires Numbered(c) && e !in c.inbox
    ensures Numbered(c.(version := c.version + 1, phase := Processing,
            inbox := c.inbox[e := InboxRow(c.version + 1, false)]))
  {
    var after := c.(version := c.version + 1, phase := Processing,
      inbox := c.inbox[e := InboxRow(c.version + 1, false)]);
    forall v: nat | 1 <= v <= after.version ensures HasEvent(after, v) {
      if v <= c.version {
        assert HasEvent(c, v);
        var f :| f in c.inbox && c.inbox[f].version == v;
        assert f in after.inbox && after.inbox[f].version == v;
      } else {
        assert after.inbox[e].version == v;
      }
    }
  }

  lemma MarkKeepsNumbering(c: Case, e: string)
    requires Numbered(c) && e in c.inbox
    ensures Numbered(Dispatched(c, e))
  {
    var after := Dispatched(c, e);
    forall v: nat | 1 <= v <= after.version ensures HasEvent(after, v) {
      assert HasEvent(c, v);
      var f :| f in c.inbox && c.inbox[f].version == v;
      assert f in after.inbox && after.inbox[f].version == v;
    }
  }

  lemma ElsewhereKeepsNumbering(c: Case, after: Case)
    requires Numbered(c) && after.version == c.version && after.inbox == c.inbox
    ensures Numbered(after)
  {
    forall v: nat | 1 <= v <= after.version ensures HasEvent(after, v) {
      assert HasEvent(c, v);
      var f :| f in c.inbox && c.inbox[f].version == v;
      assert f in after.inbox && after.inbox[f].version == v;
    }
  }

  lemma StepKeepsNumbering(c: Option<Case>, s: Step)
    requires c.Some? ==> Numbered(c.value)
    ensures Next(c, s).Some? ==> Numbered(Next(c, s).value)
  {
    hide Numbered;
    match s
    case Deliver(d) =>
      if Outcome(c, d).reason == Initial {
        var base := if c.Some? then c.value else NoCase(d.supplier);
        assert Numbered(NoCase(d.supplier)) by { NothingIsNumbered(d.supplier); }
        ClaimKeepsNumbering(base, d.eventId);
      }
    case Mark(e) =>
      if c.Some? && e in c.value.inbox { MarkKeepsNumbering(c.value, e); }
    case Elsewhere(rest) =>
      if c.Some? { ElsewhereKeepsNumbering(c.value, rest.(version := c.value.version, inbox := c.value.inbox)); }
  }

  lemma NothingIsNumbered(supplier: string)
    ensures Numbered(NoCase(supplier))
  {
  }

  /** After any sequence of fresh, repeated, duplicate and stale deliveries the versions number the events. */
  lemma {:induction false} VersionsNumberTheEvents(steps: seq<Step>)
    ensures Run(steps).Some? ==> Numbered(Run(steps).value)
  {
    if steps != [] {
      VersionsNumberTheEvents(steps[..|steps| - 1]);
      StepKeepsNumbering(Run(steps[..|steps| - 1]), steps[|steps| - 1]);
    }
  }

  lemma {:induction false} ClaimsLast(steps: seq<Step>, n: nat, e: string)
    requires n <= |steps| && Run(steps[..n]).Some? && e in Run(steps[..n]).value.inbox
    ensures Run(steps).Some? && e in Run(steps).value.inbox
    ensures Run(steps).value.inbox[e].version == Run(steps[..n]).value.inbox[e].version
    ensures Run(steps[..n]).value.inbox[e].dispatched ==> Run(steps).value.inbox[e].dispatched
    decreases |steps|
  {
    if n == |steps| {
      assert steps[..n] == steps;
    } else {
      var before := steps[..|steps| - 1];
      assert before[..n] == steps[..n];
      ClaimsLast(before, n, e);
      VersionsNumberTheEvents(before);
      StepExtends(Run(before), steps[|steps| - 1]);
    }
  }

  /** Once claimed, an event is never refused as stale: it is admitted again, at the version it was first
      given, until it is marked dispatched, and never admitted after that. */
  lemma ClaimedEventsAreNeverStale(steps: seq<Step>, n: nat, d: Delivery)
    requires n <= |steps| && Run(steps[..n]).Some? && d.eventId in Run(steps[..n]).value.inbox
    ensures var first := Run(steps[..n]).value.inbox[d.eventId];
            var r := Outcome(Run(steps), d);
            (r.reason == Redispatch || r.reason == DuplicateEvent)
            && (r.claimed <==> !Run(steps).value.inbox[d.eventId].dispatched)
            && (r.claimed ==> r.version == first.version)
            && (first.dispatched ==> r.reason == DuplicateEvent)
  {
    ClaimsLast(steps, n, d.eventId);
  }

  /** A new event is refused exactly when it was written against another version than the current one. */
  lemma FreshEventsAreAdmitted(steps: seq<Step>, d: Delivery)
    requires Run(steps).Some? ==> d.eventId !in Run(steps).value.inbox
    ensures var current := if Run(steps).Some? then Run(steps).value.version else 0;
            (Outcome(Run(steps), d).claimed <==> (d.expected.None? || d.expected.value == current))
            && (Outcome(Run(steps), d).claimed ==>
                  Run(steps + [Deliver(d)]).Some? && Run(steps + [Deliver(d)]).value.version == current + 1)
  {
    assert (steps + [Deliver(d)])[..|steps|] == steps;
  }
}
