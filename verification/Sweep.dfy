/** The scheduled sweep that re-drives cases holding a failed command (app/executor/sweep.py). */
module Sweep {

  import opened Basics
  import opened Store
  import L = Lifecycle
  import C = Commands
  import E = Erp
  import R = Runner

  function NonEmpty(ids: seq<string>): seq<string> {
    if ids == [] then []
    else NonEmpty(ids[..|ids| - 1]) + if ids[|ids| - 1] == "" then [] else [ids[|ids| - 1]]
  }

  function FirstOf(ids: seq<string>, limit: nat): seq<string> {
    if |ids| <= limit then ids else ids[..limit]
  }

  /** The cases a query names, each once. */
  function Named(query: seq<string>): seq<string> {
    Dedupe(NonEmpty(query))
  }

  function Stuck(query: seq<string>, limit: nat): seq<string> {
    FirstOf(Named(query), limit)
  }

  /** `query` is the case id of every failed row, in the order the database returns them. */
  method FindStuckCaseIds(query: seq<string>, limit: nat) returns (caseIds: seq<string>, skipped: nat)
    ensures caseIds == Stuck(query, limit)
    ensures |caseIds| + skipped == |Named(query)|
    ensures skipped > 0 ==> |caseIds| == limit
  {
    hide Named, FirstOf;
    caseIds := [];
    var seen: set<string> := {};
    ghost var distinct: seq<string> := [];
    NothingNamed(query);
    FirstOfMore([], "", limit);
    for i := 0 to |query|
      invariant distinct == Named(query[..i])
      invariant caseIds == FirstOf(distinct, limit)
      invariant |seen| == |distinct| && forall id :: id in seen <==> id in distinct
    {
      var caseId := query[i];
      NamesGrow(query, i);
      FirstOfMore(distinct, caseId, limit);
      if caseId != "" && caseId !in seen {
        seen := seen + {caseId};
        distinct := distinct + [caseId];
        if |caseIds| < limit {
          caseIds := caseIds + [caseId];
        }
      }
    }
    assert query[..|query|] == query;
    FirstOfMore(distinct, "", limit);
    skipped := |seen| - |caseIds|;
  }

  lemma FirstOfMore(ids: seq<string>, id: string, limit: nat)
    ensures FirstOf([], limit) == []
    ensures |FirstOf(ids, limit)| == if |ids| < limit then |ids| else limit
    ensures FirstOf(ids + [id], limit) ==
              if |FirstOf(ids, limit)| < limit then FirstOf(ids, limit) + [id] else FirstOf(ids, limit)
  {
  }

  lemma NothingNamed(query: seq<string>)
    ensures Named(query[..0]) == []
  {
  }

  lemma NamesGrow(query: seq<string>, i: nat)
    requires i < |query|
    ensures var before := Named(query[..i]);
            Named(query[..i + 1]) == if query[i] == "" || query[i] in before then before else before + [query[i]]
  {
    var kept := NonEmpty(query[..i]);
    assert query[..i + 1][..i] == query[..i];
    if query[i] != "" {
      var more := kept + [query[i]];
      assert NonEmpty(query[..i + 1]) == more;
      assert more[..|more| - 1] == kept && more[|more| - 1] == query[i];
    } else {
      assert NonEmpty(query[..i + 1]) == kept + [] == kept;
    }
  }

  /* ---- one sweep ---- */

  /** What drives one sweep from outside: listing order, ERP answers and deaths of drains, by case. */
  datatype Conditions = Conditions(query: seq<string>, streams: string -> seq<Key>, answers: string -> Key -> E.Answer,
                                   deaths: string -> Option<R.Death>)

  datatype World = World(cases: map<string, Case>, records: E.Records, reports: seq<R.Report>)

  function DriveCase(w: World, id: string, e: Conditions): World {
    if id !in w.cases then w
    else
      var d := R.DrainedUntil(w.cases[id], w.records, e.streams(id), e.answers(id), e.deaths(id));
      World(w.cases[id := w.cases[id].(outbox := d.outbox)], d.records, w.reports + d.reports)
  }

  function DriveCases(w: World, ids: seq<string>, e: Conditions): World {
    if ids == [] then w else DriveCase(DriveCases(w, ids[..|ids| - 1], e), ids[|ids| - 1], e)
  }

  /** How many of the drains get through. */
  function Survivors(ids: seq<string>, e: Conditions): nat {
    if ids == [] then 0 else Survivors(ids[..|ids| - 1], e) + if e.deaths(ids[|ids| - 1]).None? then 1 else 0
  }

  function Swept(w: World, e: Conditions, limit: nat): World {
    DriveCases(w.(reports := []), Stuck(e.query, limit), e)
  }

  predicate Driven(r: R.Report) { r.Ran? && (r.status == Done || r.status == Failed) }

  predicate ReportedDead(r: R.Report) { r.AlreadyDead? || (r.Ran? && r.status == Dead) }

  function CountIf(reports: seq<R.Report>, p: R.Report -> bool): nat {
    if reports == [] then 0
    else CountIf(reports[..|reports| - 1], p) + if p(reports[|reports| - 1]) then 1 else 0
  }

  ghost predicate Listed(cases: map<string, Case>, e: Conditions) {
    (forall id :: id in e.query ==> id in cases)
    && forall id :: id in cases ==> R.Lists(e.streams(id), cases[id].outbox)
  }

  /** The sweep: finds the stuck cases and drains each through the one executor, tallying what it reports. A drain that
      dies is passed over: what it did stays done, and it counts nowhere. */
  method SweepFailedCommands(db: Firestore, erp: E.Frappe, e: Conditions, limit: nat)
    returns (swept: nat, driven: nat, refused: nat, dead: nat, skipped: nat, caseIds: seq<string>)
    requires Listed(db.cases, e)
    modifies db, erp
    ensures var w := Swept(World(old(db.cases), old(erp.Data()), []), e, limit);
            db.cases == w.cases && erp.Data() == w.records
            && driven == CountIf(w.reports, Driven)
              && refused == CountIf(w.reports, (r: R.Report) => r.RefusedByPolicy?)
            && dead == CountIf(w.reports, ReportedDead)
    ensures caseIds == Stuck(e.query, limit) && swept == Survivors(caseIds, e)
    ensures |caseIds| + skipped == |Named(e.query)|
  {
    hide R.DrainedUntil, R.Lists, NonEmpty, CountIf, DriveCase, DriveCases, Survivors, Driven, ReportedDead, Stuck,
         Named;
    StuckComesFromQuery(e.query, limit);
    caseIds, skipped := FindStuckCaseIds(e.query, limit);
    swept, driven, refused, dead := 0, 0, 0, 0;
    ghost var start := World(db.cases, erp.Data(), []);
    ghost var reports: seq<R.Report> := [];
    NothingCounted();
    Onwards(start, caseIds, 0, e);
    for i := 0 to |caseIds|
      invariant swept == Survivors(caseIds[..i], e)
      invariant World(db.cases, erp.Data(), reports) == DriveCases(start, caseIds[..i], e)
      invariant db.cases.Keys == start.cases.Keys
      invariant forall id :: id in db.cases ==> R.Lists(e.streams(id), db.cases[id].outbox)
      invariant driven == CountIf(reports, Driven) && refused == CountIf(reports, (r: R.Report) => r.RefusedByPolicy?)
                && dead == CountIf(reports, ReportedDead)
    {
      var id := caseIds[i];
      Onwards(start, caseIds, i, e);
      assert id in caseIds;
      var outcome := SweepOne(db, erp, id, e, reports);
      ghost var more := if outcome.Some? then outcome.value else [];
      CountIfAdds(reports, more, Driven);
      CountIfAdds(reports, more, (r: R.Report) => r.RefusedByPolicy?);
      CountIfAdds(reports, more, ReportedDead);
      NothingCounted();
      reports := reports + more;
      if outcome.Some? {
        var results := outcome.value;
        swept := swept + 1;
        driven := driven + CountIf(results, Driven);
        refused := refused + CountIf(results, (r: R.Report) => r.RefusedByPolicy?);
        dead := dead + CountIf(results, ReportedDead);
      }
    }
    assert caseIds[..|caseIds|] == caseIds;
  }

  lemma Onwards(start: World, ids: seq<string>, i: nat, e: Conditions)
    requires i <= |ids|
    ensures DriveCases(start, ids[..0], e) == start && Survivors(ids[..0], e) == 0
    ensures i < |ids| ==>
              DriveCases(start, ids[..i + 1], e) == DriveCase(DriveCases(start, ids[..i], e), ids[i], e)
              && Survivors(ids[..i + 1], e) == Survivors(ids[..i], e) + if e.deaths(ids[i]).None? then 1 else 0
  {
    if i < |ids| { assert ids[..i + 1][..i] == ids[..i]; }
  }

  lemma NothingCounted()
    ensures forall p: R.Report -> bool :: CountIf([], p) == 0
  {
  }

  /** One case of a sweep; None is a drain that died. */
  method SweepOne(db: Firestore, erp: E.Frappe, id: string, e: Conditions,
                  ghost reports: seq<R.Report>) returns (outcome: Option<seq<R.Report>>)
    requires id in db.cases && forall o :: o in db.cases ==> R.Lists(e.streams(o), db.cases[o].outbox)
    modifies db, erp
    ensures outcome.Some? <==> e.deaths(id).None?
    ensures World(db.cases, erp.Data(), reports + if outcome.Some? then outcome.value else []) ==
              DriveCase(World(old(db.cases), old(erp.Data()), reports), id, e)
    ensures db.cases.Keys == old(db.cases.Keys) && forall o :: o in db.cases ==>
              R.Lists(e.streams(o), db.cases[o].outbox)
  {
    hide R.DrainedUntil, R.Lists;
    DrainKeepsListing(db.cases[id], erp.Data(), e.streams(id), e.answers(id), e.deaths(id));
    DyingReportsNothing(db.cases[id], erp.Data(), e.streams(id), e.answers(id), e.deaths(id));
    outcome := R.ExecutePendingCommands(db, erp, id, e.streams(id), e.answers(id), e.deaths(id));
  }

  lemma DyingReportsNothing(c: Case, records: E.Records, stream: seq<Key>, answers: Key -> E.Answer,
                            death: Option<R.Death>)
    ensures death.Some? ==> R.DrainedUntil(c, records, stream, answers, death).reports == []
  {
  }

  lemma {:induction false} CountIfAdds(a: seq<R.Report>, b: seq<R.Report>, p: R.Report -> bool)
    ensures CountIf(a + b, p) == CountIf(a, p) + CountIf(b, p)
  {
    if b == [] {
      assert a + b == a;
    } else {
      assert (a + b)[..|a + b| - 1] == a + b[..|b| - 1];
      CountIfAdds(a, b[..|b| - 1], p);
    }
  }

  lemma DrainKeepsListing(c: Case, records: E.Records, stream: seq<Key>, answers: Key -> E.Answer,
                          death: Option<R.Death>)
    requires R.Lists(stream, c.outbox)
    ensures R.Lists(stream, R.DrainedUntil(c, records, stream, answers, death).outbox)
  {
    hide R.DrainedUntil;
    R.DyingDrainMovesOpenRows(c, records, stream, answers, death);
  }

  lemma {:induction false} NonEmptyIsExact(ids: seq<string>)
    ensures forall id :: id in NonEmpty(ids) <==> id in ids && id != ""
  {
    if ids != [] {
      NonEmptyIsExact(ids[..|ids| - 1]);
      assert forall id :: id in ids <==> id in ids[..|ids| - 1] || id == ids[|ids| - 1];
    }
  }

  /** A query names the cases it lists, but for the empty id, each once and in the order of their first mention; a sweep
      takes as many of the first ones as its limit allows. */
  lemma NamedExactly(query: seq<string>, n: nat, limit: nat)
    requires n <= |query|
    ensures forall id :: id in Named(query) <==> id in query && id != ""
    ensures forall i, j :: 0 <= i < j < |Named(query)| ==> Named(query)[i] != Named(query)[j]
    ensures Named(query[..n]) <= Named(query)
    ensures Stuck(query, limit) <= Named(query)
    ensures |Stuck(query, limit)| == if |Named(query)| < limit then |Named(query)| else limit
  {
    NonEmptyIsExact(query);
    NamesExtend(query, n);
  }

  lemma {:induction false} NamesExtend(query: seq<string>, n: nat)
    requires n <= |query|
    ensures Named(query[..n]) <= Named(query)
    decreases |query| - n
  {
    hide Named;
    if n < |query| {
      NamesExtend(query, n + 1);
      NamesGrow(query, n);
    } else {
      assert query[..n] == query;
    }
  }

  lemma StuckComesFromQuery(query: seq<string>, limit: nat)
    ensures forall id :: id in Stuck(query, limit) ==> id in query && id != ""
    ensures forall i, j :: 0 <= i < j < |Stuck(query, limit)| ==> Stuck(query, limit)[i] != Stuck(query, limit)[j]
    ensures limit > 0 && (exists id :: id in query && id != "") ==> Stuck(query, limit) != []
  {
    NonEmptyIsExact(query);
    var all := Dedupe(NonEmpty(query));
    assert forall id :: id in FirstOf(all, limit) ==> id in all;
    if limit > 0 && exists id :: id in query && id != "" {
      var id :| id in query && id != "";
      assert id in all;
    }
  }

  /** Every result is counted under exactly one heading. */
  lemma {:induction false} TalliesAddUp(reports: seq<R.Report>)
    requires forall r :: r in reports && r.Ran? ==> r.status != Pending
    ensures CountIf(reports, Driven) + CountIf(reports, (r: R.Report) => r.RefusedByPolicy?)
            + CountIf(reports, ReportedDead) == |reports|
  {
    if reports != [] {
      TalliesAddUp(reports[..|reports| - 1]);
      assert reports[|reports| - 1] in reports;
    }
  }

  /** No drain reports a command it ran as pending. */
  lemma {:induction false} DrainsReportOutcomes(d: R.Drain, cleared: bool, read: map<Key, Row>, todo: seq<Key>,
                                                answers: Key -> E.Answer)
    requires forall r :: r in d.reports && r.Ran? ==> r.status != Pending
    ensures forall r :: r in R.DrainAll(d, cleared, read, todo, answers).reports && r.Ran? ==> r.status != Pending
  {
    hide E.After, E.Ok;
    if todo != [] {
      DrainsReportOutcomes(d, cleared, read, todo[..|todo| - 1], answers);
    }
  }

  lemma {:induction false} SweepReportsOutcomes(w: World, ids: seq<string>, e: Conditions)
    requires forall r :: r in w.reports && r.Ran? ==> r.status != Pending
    ensures forall r :: r in DriveCases(w, ids, e).reports && r.Ran? ==> r.status != Pending
  {
    hide R.DrainAll, R.Todo, R.Sorted, R.Selected;
    if ids != [] {
      var before := DriveCases(w, ids[..|ids| - 1], e);
      var id := ids[|ids| - 1];
      SweepReportsOutcomes(w, ids[..|ids| - 1], e);
      if id in before.cases {
        var c := before.cases[id];
        DyingReportsNothing(c, before.records, e.streams(id), e.answers(id), e.deaths(id));
        DrainsReportOutcomes(R.Drain(c.outbox, before.records, []), R.Cleared(c), c.outbox,
          R.Todo(c.outbox, e.streams(id)), e.answers(id));
      }
    }
  }

  /** The three tallies of a sweep account for every result its drains returned. */
  lemma SweepTalliesAddUp(w: World, e: Conditions, limit: nat)
    ensures var reports := Swept(w, e, limit).reports;
            CountIf(reports, Driven) + CountIf(reports, (r: R.Report) => r.RefusedByPolicy?)
              + CountIf(reports, ReportedDead) == |reports|
  {
    SweepReportsOutcomes(w.(reports := []), Stuck(e.query, limit), e);
    TalliesAddUp(Swept(w, e, limit).reports);
  }

  /** The rows that reports of this kind are about. */
  ghost function KeysOf(reports: seq<R.Report>, p: R.Report -> bool): set<Key> {
    set r | r in reports && p(r) :: r.key
  }

  lemma KeysGrow(reports: seq<R.Report>, last: R.Report, p: R.Report -> bool)
    ensures KeysOf(reports + [last], p) == KeysOf(reports, p) + if p(last) then {last.key} else {}
  {
    var all := reports + [last];
    assert forall r :: r in all <==> r in reports || r == last;
    forall k ensures k in KeysOf(all, p) <==> k in KeysOf(reports, p) || (p(last) && k == last.key) {
      if k in KeysOf(all, p) {
        var r :| r in all && p(r) && r.key == k;
      }
    }
  }

  /** Counting reports on distinct rows counts rows. */
  lemma {:induction false} CountsRows(reports: seq<R.Report>, p: R.Report -> bool)
    requires forall i, j :: 0 <= i < j < |reports| ==> reports[i].key != reports[j].key
    ensures CountIf(reports, p) == |KeysOf(reports, p)|
  {
    hide KeysOf;
    if reports != [] {
      var init, last := reports[..|reports| - 1], reports[|reports| - 1];
      CountsRows(init, p);
      assert reports == init + [last];
      KeysGrow(init, last, p);
      assert last.key !in KeysOf(init, p) by { NotAmongTheRest(init, last, p); }
    } else {
      NothingReported(p);
    }
  }

  lemma NothingReported(p: R.Report -> bool)
    ensures KeysOf([], p) == {}
  {
  }

  lemma NotAmongTheRest(reports: seq<R.Report>, last: R.Report, p: R.Report -> bool)
    requires forall r :: r in reports ==> r.key != last.key
    ensures last.key !in KeysOf(reports, p)
  {
  }

  /** The drain runs the row. */
  predicate Runs(c: Case, k: Key) {
    k in c.outbox && !C.Settled(c.outbox[k].status) && R.Permitted(R.Cleared(c), k.action)
  }

  /** The rows that were run and are now done or failed. */
  function DrivenRows(c: Case, after: map<Key, Row>): set<Key> {
    set k | k in c.outbox && Runs(c, k) && k in after && (after[k].status == Done || after[k].status == Failed)
  }

  /** The open rows that were withheld. */
  function RefusedRows(c: Case): set<Key> {
    set k | k in c.outbox && !C.Settled(c.outbox[k].status) && !Runs(c, k)
  }

  /** The rows that were dead or have died. */
  function DeadRows(c: Case, after: map<Key, Row>): set<Key> {
    set k | k in c.outbox && (c.outbox[k].status == Dead || (Runs(c, k) && k in after && after[k].status == Dead))
  }

  /** What a sweep counts of a case whose drain gets through are its rows, under the three headings. */
  lemma TalliesTellTheRows(c: Case, records: E.Records, stream: seq<Key>, answers: Key -> E.Answer)
    requires R.Lists(stream, c.outbox)
    ensures var d := R.Drained(c, records, stream, answers);
            CountIf(d.reports, Driven) == |DrivenRows(c, d.outbox)|
            && CountIf(d.reports, (r: R.Report) => r.RefusedByPolicy?) == |RefusedRows(c)|
            && CountIf(d.reports, ReportedDead) == |DeadRows(c, d.outbox)|
  {
    hide R.Drained, R.Todo, R.Sorted, R.Selected, R.Tells;
    hide CountIf, Driven, ReportedDead, Runs, DrivenRows, RefusedRows, DeadRows;
    var d := R.Drained(c, records, stream, answers);
    R.ReportsTellTheRows(c, records, stream, answers);
    R.DrainMovesOpenRows(c, records, stream, answers);
    forall r | r in d.reports ensures r.key in c.outbox { ReportsAreAboutRows(R.Cleared(c), c.outbox, d.outbox, r); }
    forall k | k in c.outbox
      ensures (exists r :: r in d.reports && Driven(r) && r.key == k) <==> k in DrivenRows(c, d.outbox)
      ensures (exists r :: r in d.reports && r.RefusedByPolicy? && r.key == k) <==> k in RefusedRows(c)
      ensures (exists r :: r in d.reports && ReportedDead(r) && r.key == k) <==> k in DeadRows(c, d.outbox)
    {
      OneRowsReport(c, d, k);
    }
    RowsHaveKeys(c, d.outbox);
    CountsTheseRows(c.outbox.Keys, d.reports, Driven, DrivenRows(c, d.outbox));
    CountsTheseRows(c.outbox.Keys, d.reports, (r: R.Report) => r.RefusedByPolicy?, RefusedRows(c));
    CountsTheseRows(c.outbox.Keys, d.reports, ReportedDead, DeadRows(c, d.outbox));
  }

  lemma RowsHaveKeys(c: Case, after: map<Key, Row>)
    ensures DrivenRows(c, after) <= c.outbox.Keys && RefusedRows(c) <= c.outbox.Keys
    ensures DeadRows(c, after) <= c.outbox.Keys
  {
  }

  lemma ReportsAreAboutRows(cleared: bool, before: map<Key, Row>, after: map<Key, Row>, r: R.Report)
    requires R.Tells(cleared, before, after, r)
    ensures r.key in before
  {
  }

  lemma CountsTheseRows(keys: set<Key>, reports: seq<R.Report>, p: R.Report -> bool, rows: set<Key>)
    requires forall i, j :: 0 <= i < j < |reports| ==> reports[i].key != reports[j].key
    requires rows <= keys && forall r :: r in reports ==> r.key in keys
    requires forall k :: k in keys ==> ((exists r :: r in reports && p(r) && r.key == k) <==> k in rows)
    ensures CountIf(reports, p) == |rows|
  {
    CountsRows(reports, p);
    assert KeysOf(reports, p) == rows;
  }

  lemma OneRowsReport(c: Case, d: R.Drain, k: Key)
    requires k in c.outbox && k in d.outbox && (C.Settled(c.outbox[k].status) ==> d.outbox[k] == c.outbox[k])
    requires forall r :: r in d.reports ==> R.Tells(R.Cleared(c), c.outbox, d.outbox, r)
    requires forall i, j :: 0 <= i < j < |d.reports| ==> d.reports[i].key != d.reports[j].key
    requires c.outbox[k].status != Done ==> exists r :: r in d.reports && r.key == k
    ensures ((exists r :: r in d.reports && Driven(r) && r.key == k) <==> k in DrivenRows(c, d.outbox))
            && ((exists r :: r in d.reports && r.RefusedByPolicy? && r.key == k) <==> k in RefusedRows(c))
            && ((exists r :: r in d.reports && ReportedDead(r) && r.key == k) <==> k in DeadRows(c, d.outbox))
  {
    hide R.Cleared, R.Permitted;
    if c.outbox[k].status != Done {
      var r :| r in d.reports && r.key == k;
      assert R.Tells(R.Cleared(c), c.outbox, d.outbox, r);
    }
  }

  /* ---- progress ---- */

  ghost function Pick<T>(s: set<T>): T
    requires s != {}
  {
    var x :| x in s; x
  }

  ghost function SumOver<T>(s: set<T>, f: T -> int): int {
    if s == {} then 0 else f(Pick(s)) + SumOver(s - {Pick(s)}, f)
  }

  lemma {:induction false} SumsCompare<T>(s: set<T>, f: T -> int, g: T -> int)
    requires forall x :: x in s ==> f(x) <= g(x)
    ensures SumOver(s, f) <= SumOver(s, g)
    ensures (exists x :: x in s && f(x) < g(x)) ==> SumOver(s, f) < SumOver(s, g)
    ensures (forall x :: x in s ==> f(x) == g(x)) ==> SumOver(s, f) == SumOver(s, g)
    decreases |s|
  {
    if s != {} {
      SumsCompare(s - {Pick(s)}, f, g);
      if x :| x in s && f(x) < g(x) {
        assert x == Pick(s) || x in s - {Pick(s)};
      }
    }
  }

  /** Attempts an open row has left; nothing is left of a settled one. */
  function RowLeft(row: Row): int {
    if C.Settled(row.status) then 0 else C.MAX_EXECUTION_ATTEMPTS - row.executionAttempts
  }

  ghost function CaseLeft(outbox: map<Key, Row>): int {
    SumOver(outbox.Keys, (k: Key) => if k in outbox then RowLeft(outbox[k]) else 0)
  }

  ghost function Left(cases: map<string, Case>): int {
    SumOver(cases.Keys, (id: string) => if id in cases then CaseLeft(cases[id].outbox) else 0)
  }

  ghost predicate HasFailed(c: Case) {
    exists k :: k in c.outbox && c.outbox[k].status == Failed
  }

  /** A drain of a capped outbox keeps the cap and never raises the attempts left; it lowers them exactly when
      some open row was permitted to run. */
  lemma DrainProgress(c: Case, records: E.Records, stream: seq<Key>, answers: Key -> E.Answer)
    requires R.Lists(stream, c.outbox) && C.Capped(c.outbox)
    ensures var after := R.Drained(c, records, stream, answers).outbox;
            C.Capped(after) && CaseLeft(after) <= CaseLeft(c.outbox)
            && (CaseLeft(after) < CaseLeft(c.outbox) <==>
                  exists k :: k in c.outbox && !C.Settled(c.outbox[k].status) && R.Permitted(R.Cleared(c), k.action))
  {
    hide R.Drained, RowLeft, CaseLeft, R.Moved, R.Permitted, R.Cleared;
    var after := R.Drained(c, records, stream, answers).outbox;
    R.DrainMovesOpenRows(c, records, stream, answers);
    forall k | k in c.outbox
      ensures RowLeft(after[k]) <= RowLeft(c.outbox[k])
      ensures RowLeft(after[k]) < RowLeft(c.outbox[k]) <==>
                !C.Settled(c.outbox[k].status) && R.Permitted(R.Cleared(c), k.action)
      ensures !C.Settled(after[k].status) ==> after[k].executionAttempts < C.MAX_EXECUTION_ATTEMPTS
    {
      RowProgress(R.Cleared(c), c.outbox[k], after[k], k.action);
    }
    OutboxProgress(c.outbox, after);
  }

  lemma RowProgress(cleared: bool, before: Row, after: Row, a: L.Action)
    requires !C.Settled(before.status) ==> before.executionAttempts < C.MAX_EXECUTION_ATTEMPTS
    requires if C.Settled(before.status) then after == before else R.Moved(cleared, before, after, a)
    ensures RowLeft(after) <= RowLeft(before)
    ensures RowLeft(after) < RowLeft(before) <==> !C.Settled(before.status) && R.Permitted(cleared, a)
    ensures !C.Settled(after.status) ==> after.executionAttempts < C.MAX_EXECUTION_ATTEMPTS
  {
  }

  lemma OutboxProgress(before: map<Key, Row>, after: map<Key, Row>)
    requires after.Keys == before.Keys && forall k :: k in before ==> RowLeft(after[k]) <= RowLeft(before[k])
    ensures CaseLeft(after) <= CaseLeft(before)
    ensures CaseLeft(after) < CaseLeft(before) <==> exists k :: k in before && RowLeft(after[k]) < RowLeft(before[k])
  {
    hide RowLeft;
    var f := (k: Key) => if k in after then RowLeft(after[k]) else 0;
    var g := (k: Key) => if k in before then RowLeft(before[k]) else 0;
    SumsCompare(before.Keys, f, g);
    if k :| k in before && RowLeft(after[k]) < RowLeft(before[k]) {
      assert f(k) < g(k);
    } else {
      assert forall k :: k in before.Keys ==> f(k) == g(k);
    }
  }

  /** One that dies on the way loses no ground either. */
  lemma DyingDrainKeeps(c: Case, records: E.Records, stream: seq<Key>, answers: Key -> E.Answer, death: Option<R.Death>)
    requires R.Lists(stream, c.outbox) && C.Capped(c.outbox)
    ensures var after := R.DrainedUntil(c, records, stream, answers, death).outbox;
            C.Capped(after) && CaseLeft(after) <= CaseLeft(c.outbox)
  {
    hide R.DrainedUntil, RowLeft, CaseLeft, R.Moved, R.Permitted, R.Cleared;
    var after := R.DrainedUntil(c, records, stream, answers, death).outbox;
    R.DyingDrainMovesOpenRows(c, records, stream, answers, death);
    forall k | k in c.outbox
      ensures RowLeft(after[k]) <= RowLeft(c.outbox[k])
      ensures !C.Settled(after[k].status) ==> after[k].executionAttempts < C.MAX_EXECUTION_ATTEMPTS
    {
      if after[k] != c.outbox[k] { RowProgress(R.Cleared(c), c.outbox[k], after[k], k.action); }
    }
    OutboxProgress(c.outbox, after);
  }

  lemma {:induction false} CaseLeftIsNatural(outbox: map<Key, Row>)
    requires C.Capped(outbox)
    ensures CaseLeft(outbox) >= 0
  {
    var f := (k: Key) => 0;
    SumsCompare(outbox.Keys, f, (k: Key) => if k in outbox then RowLeft(outbox[k]) else 0);
    ZeroSum(outbox.Keys, f);
  }

  lemma {:induction false} ZeroSum<T>(s: set<T>, f: T -> int)
    requires forall x :: x in s ==> f(x) == 0
    ensures SumOver(s, f) == 0
    decreases |s|
  {
    if s != {} { ZeroSum(s - {Pick(s)}, f); }
  }

  ghost predicate AllCapped(cases: map<string, Case>) {
    forall id :: id in cases ==> C.Capped(cases[id].outbox)
  }

  ghost predicate AllListed(cases: map<string, Case>, e: Conditions) {
    forall id :: id in cases ==> R.Lists(e.streams(id), cases[id].outbox)
  }

  /** Everything a sweep leaves alone in a case. */
  ghost predicate OnlyOutboxes(before: map<string, Case>, after: map<string, Case>) {
    before.Keys == after.Keys && forall id :: id in before ==> after[id] == before[id].(outbox := after[id].outbox)
  }

  /** A sweep that gets through with the case makes progress there. */
  ghost predicate Drivable(c: Case) { R.Cleared(c) && HasFailed(c) }

  lemma DrivingOneKeeps(w: World, id: string, e: Conditions)
    requires AllCapped(w.cases) && AllListed(w.cases, e) && id in w.cases
    ensures var after := DriveCase(w, id, e).cases;
            AllCapped(after) && AllListed(after, e) && OnlyOutboxes(w.cases, after)
            && (forall o :: o in w.cases && o != id ==> after[o] == w.cases[o])
            && CaseLeft(after[id].outbox) <= CaseLeft(w.cases[id].outbox)
            && (Drivable(w.cases[id]) && e.deaths(id).None? ==>
                  CaseLeft(after[id].outbox) < CaseLeft(w.cases[id].outbox))
  {
    hide R.Drained, CaseLeft, R.Lists, R.Cleared, C.Capped, R.Todo, R.DrainAll;
    var c := w.cases[id];
    DyingDrainKeeps(c, w.records, e.streams(id), e.answers(id), e.deaths(id));
    DrainProgress(c, w.records, e.streams(id), e.answers(id));
    DrainKeepsListing(c, w.records, e.streams(id), e.answers(id), e.deaths(id));
    if HasFailed(c) {
      var k :| k in c.outbox && c.outbox[k].status == Failed;
      assert !C.Settled(c.outbox[k].status);
    }
  }

  lemma {:induction false} DrivingKeeps(w: World, ids: seq<string>, e: Conditions)
    requires AllCapped(w.cases) && AllListed(w.cases, e)
    ensures var after := DriveCases(w, ids, e).cases;
            AllCapped(after) && AllListed(after, e) && OnlyOutboxes(w.cases, after)
            && (forall id :: id in w.cases ==> CaseLeft(after[id].outbox) <= CaseLeft(w.cases[id].outbox))
            && (forall id :: id in w.cases && id !in ids ==> after[id] == w.cases[id])
            && ((forall i, j :: 0 <= i < j < |ids| ==> ids[i] != ids[j]) ==>
                  forall id :: id in w.cases && id in ids && Drivable(w.cases[id]) && e.deaths(id).None? ==>
                    CaseLeft(after[id].outbox) < CaseLeft(w.cases[id].outbox))
  {
    hide R.Drained, CaseLeft, R.Lists, R.Cleared, HasFailed, AllCapped, AllListed, DriveCase;
    if ids != [] {
      var last := ids[|ids| - 1];
      var before := DriveCases(w, ids[..|ids| - 1], e);
      DrivingKeeps(w, ids[..|ids| - 1], e);
      assert forall id :: id in ids <==> id in ids[..|ids| - 1] || id == last;
      if (forall i, j :: 0 <= i < j < |ids| ==> ids[i] != ids[j]) {
        assert last !in ids[..|ids| - 1];
      }
      if last in before.cases {
        DrivingOneKeeps(before, last, e);
      } else {
        DrivingNone(before, last, e);
      }
    }
  }

  lemma DrivingNone(w: World, id: string, e: Conditions)
    requires id !in w.cases
    ensures DriveCase(w, id, e) == w
  {
  }

  /** The query returns the cases with a failed row. */
  ghost predicate FindsStuck(cases: map<string, Case>, query: seq<string>) {
    forall id :: id in query <==> id in cases && HasFailed(cases[id])
  }

  /** Stuck cases are clear. */
  ghost predicate StuckAreClear(cases: map<string, Case>) {
    forall id :: id in cases && HasFailed(cases[id]) ==> R.Cleared(cases[id])
  }

  /** Some drain of the sweep gets through, if it finds anything to do. */
  ghost predicate Works(e: Conditions, limit: nat) {
    e.query != [] ==> exists id :: id in Stuck(e.query, limit) && e.deaths(id).None?
  }

  /** A sweep changes no verdict and makes no other case stuck. */
  lemma SweepKeepsClear(w: World, e: Conditions, limit: nat)
    requires AllCapped(w.cases) && AllListed(w.cases, e) && FindsStuck(w.cases, e.query) && StuckAreClear(w.cases)
    ensures var after := Swept(w, e, limit).cases;
            AllCapped(after) && OnlyOutboxes(w.cases, after) && StuckAreClear(after)
            && (e.query == [] ==> after == w.cases)
            && forall id :: id in after && HasFailed(after[id]) ==> HasFailed(w.cases[id])
  {
    hide R.DrainedUntil, CaseLeft, R.Lists, Stuck, C.Capped;
    var ids := Stuck(e.query, limit);
    StuckComesFromQuery(e.query, limit);
    DrivingKeeps(w.(reports := []), ids, e);
    var after := Swept(w, e, limit).cases;
    forall id | id in after && HasFailed(after[id]) ensures HasFailed(w.cases[id]) && R.Cleared(after[id]) {
      if id !in ids { assert after[id] == w.cases[id]; } else { assert id in e.query; }
      assert R.Cleared(after[id]) == R.Cleared(w.cases[id]);
    }
    if e.query == [] {
      NoneInhabited(ids);
    }
  }

  lemma NoneInhabited(ids: seq<string>)
    ensures ids == [] || ids[0] in ids
  {
  }

  /** While every stuck case is clear, each sweep that gets through with one of them strictly lowers the attempts
      left. */
  lemma SweepProgress(w: World, e: Conditions, limit: nat)
    requires AllCapped(w.cases) && AllListed(w.cases, e) && FindsStuck(w.cases, e.query) && StuckAreClear(w.cases)
    requires "" !in w.cases && e.query != [] && Works(e, limit)
    ensures var after := Swept(w, e, limit).cases;
            AllCapped(after) && OnlyOutboxes(w.cases, after) && 0 <= Left(after) < Left(w.cases)
  {
    hide R.DrainedUntil, CaseLeft, R.Lists, Stuck;
    var ids := Stuck(e.query, limit);
    StuckComesFromQuery(e.query, limit);
    var id :| id in ids && e.deaths(id).None?;
    DrivingKeeps(w.(reports := []), ids, e);
    var after := Swept(w, e, limit).cases;
    var f := (id: string) => if id in after then CaseLeft(after[id].outbox) else 0;
    var g := (id: string) => if id in w.cases then CaseLeft(w.cases[id].outbox) else 0;
    assert f(id) < g(id);
    SumsCompare(w.cases.Keys, f, g);
    LeftIsNatural(after);
  }

  lemma LeftIsNatural(cases: map<string, Case>)
    requires AllCapped(cases)
    ensures Left(cases) >= 0
  {
    var zero := (id: string) => 0;
    var f := (id: string) => if id in cases then CaseLeft(cases[id].outbox) else 0;
    forall id | id in cases ensures zero(id) <= f(id) { CaseLeftIsNatural(cases[id].outbox); }
    SumsCompare(cases.Keys, zero, f);
    ZeroSum(cases.Keys, zero);
  }

  /** Sweeps in a row, each under its own conditions, with nothing else happening between them. */
  function SweptTimes(w: World, es: seq<Conditions>, limit: nat): World
    decreases |es|
  {
    if |es| == 0 then w else Swept(SweptTimes(w, es[..|es| - 1], limit), es[|es| - 1], limit)
  }

  /** Each sweep lists the rows there are, finds the cases that are stuck by then, and gets through with one if any. */
  ghost predicate GoodConditions(w: World, es: seq<Conditions>, limit: nat) {
    forall i :: 0 <= i < |es| ==>
      var cases := SweptTimes(w, es[..i], limit).cases;
      AllListed(cases, es[i]) && FindsStuck(cases, es[i].query) && Works(es[i], limit)
  }

  /** If the cases that are stuck at the start are clear, no series of sweeps that each still find a failed row is
      longer than the attempts left at that start. */
  lemma {:induction false} SweepsRunOut(w: World, es: seq<Conditions>, limit: nat)
    requires AllCapped(w.cases) && "" !in w.cases && StuckAreClear(w.cases) && GoodConditions(w, es, limit)
    ensures var after := SweptTimes(w, es, limit).cases;
            AllCapped(after) && after.Keys == w.cases.Keys && StuckAreClear(after)
            && 0 <= Left(after) <= Left(w.cases)
            && (Left(after) + |es| <= Left(w.cases) || (|es| > 0 && NoneFailed(after)))
    decreases |es|
  {
    hide Swept, FindsStuck, AllListed, Left, StuckAreClear, Works, AllCapped;
    if |es| == 0 {
      LeftIsNatural(w.cases);
    } else {
      var init, last := es[..|es| - 1], es[|es| - 1];
      assert forall i :: 0 <= i < |init| ==> init[..i] == es[..i] && init[i] == es[i];
      SweepsRunOut(w, init, limit);
      var before := SweptTimes(w, init, limit);
      SweepKeepsClear(before, last, limit);
      if last.query != [] {
        SweepProgress(before, last, limit);
        NoneFailedMeansNothingFound(before.cases, last.query);
      } else {
        NothingFoundMeansNoneFailed(before.cases, last.query);
      }
    }
  }

  ghost predicate NoneFailed(cases: map<string, Case>) {
    forall id :: id in cases ==> !HasFailed(cases[id])
  }

  lemma NoneFailedMeansNothingFound(cases: map<string, Case>, query: seq<string>)
    requires FindsStuck(cases, query) && query != []
    ensures !NoneFailed(cases)
  {
    assert query[0] in query;
  }

  lemma NothingFoundMeansNoneFailed(cases: map<string, Case>, query: seq<string>)
    requires FindsStuck(cases, query) && query == []
    ensures NoneFailed(cases)
  {
  }

  /** So as many sweeps as there are attempts left at the start leave no failed row anywhere. */
  lemma SweepsFinish(w: World, es: seq<Conditions>, limit: nat)
    requires AllCapped(w.cases) && "" !in w.cases && StuckAreClear(w.cases) && GoodConditions(w, es, limit)
    requires |es| >= Left(w.cases)
    ensures NoneFailed(SweptTimes(w, es, limit).cases)
  {
    hide SweptTimes, GoodConditions, Left, StuckAreClear;
    SweepsRunOut(w, es, limit);
    var after := SweptTimes(w, es, limit).cases;
    if !NoneFailed(after) {
      FailedRowsHaveAttemptsLeft(after);
    }
  }

  lemma FailedRowsHaveAttemptsLeft(cases: map<string, Case>)
    requires AllCapped(cases) && !NoneFailed(cases)
    ensures Left(cases) > 0
  {
    hide C.Capped;
    var id :| id in cases && HasFailed(cases[id]);
    var zero := (id: string) => 0;
    var f := (id: string) => if id in cases then CaseLeft(cases[id].outbox) else 0;
    forall o | o in cases ensures zero(o) <= f(o) { CaseLeftIsNatural(cases[o].outbox); }
    FailedRowHasAttemptsLeft(cases[id].outbox);
    assert zero(id) < f(id);
    SumsCompare(cases.Keys, zero, f);
    ZeroSum(cases.Keys, zero);
  }

  lemma FailedRowHasAttemptsLeft(outbox: map<Key, Row>)
    requires C.Capped(outbox) && exists k :: k in outbox && outbox[k].status == Failed
    ensures CaseLeft(outbox) > 0
  {
    var k :| k in outbox && outbox[k].status == Failed;
    var zero := (k: Key) => 0;
    var f := (k: Key) => if k in outbox then RowLeft(outbox[k]) else 0;
    assert zero(k) < f(k);
    SumsCompare(outbox.Keys, zero, f);
    ZeroSum(outbox.Keys, zero);
  }

  /** The accepted exception: a failed permissive command in a case that is no longer clear is found by every
      sweep and progresses in none, so it neither finishes nor dies. */
  lemma UnclearedFailuresStayStuck(c: Case, records: E.Records, stream: seq<Key>, answers: Key -> E.Answer, k: Key)
    requires R.Lists(stream, c.outbox) && !R.Cleared(c)
    requires k in c.outbox && c.outbox[k].status == Failed && k.action != L.ApplyHold
    ensures HasFailed(c.(outbox := R.Drained(c, records, stream, answers).outbox))
    ensures k in R.Drained(c, records, stream, answers).outbox
            && R.Drained(c, records, stream, answers).outbox[k] == c.outbox[k]
  {
    hide R.Drained;
    R.DrainMovesOpenRows(c, records, stream, answers);
    assert c.(outbox := R.Drained(c, records, stream, answers).outbox).outbox[k].status == Failed;
  }
}
