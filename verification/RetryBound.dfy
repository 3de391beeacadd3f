/** Bounded retry over every interleaving of overlapping drains. */
module RetryBound {

  import opened Basics
  import opened Store
  import opened Protocol
  import C = Commands
  import E = Erp
  import R = Runner
  import T = Terminals

  /* ---- bounded retry ---- */

  function Failures(log: seq<Obs>, k: Key): nat {
    if log == [] then 0 else Failures(log[..|log| - 1], k) + if log[|log| - 1] == Recorded(k, false) then 1 else 0
  }

  lemma OneMoreFailure(log: seq<Obs>, o: Obs, k: Key)
    ensures Failures(log + [o], k) == Failures(log, k) + if o == Recorded(k, false) then 1 else 0
  {
    assert (log + [o])[..|log|] == log;
  }

  /** The drains that still have `k` to do. */
  function Holders(workers: map<nat, Worker>, k: Key): set<nat> {
    set id | id in workers && k in workers[id].left
  }

  /** Every drain in flight holds rows that exist, among them the one it is calling about. */
  ghost predicate Orderly(workers: map<nat, Worker>, nextId: nat, rows: set<Key>) {
    forall id :: id in workers ==>
      id < nextId && workers[id].left <= rows
      && (workers[id].call.Some? ==> workers[id].ledger.Some? && workers[id].call.value.key in workers[id].left)
  }

  ghost predicate Counted(outbox: map<Key, Row>, log: seq<Obs>) {
    (forall k :: k in outbox ==> outbox[k].executionAttempts == Failures(log, k))
    && (forall k :: k !in outbox ==> Failures(log, k) == 0)
  }

  /** Once a counter has reached the cap, what can still be added to it is bounded by the drains that hold the row. */
  ghost predicate Within(n: nat, outbox: map<Key, Row>, workers: map<nat, Worker>) {
    forall k :: k in outbox ==>
      outbox[k].executionAttempts < C.MAX_EXECUTION_ATTEMPTS
      || outbox[k].executionAttempts + |Holders(workers, k)| <= C.MAX_EXECUTION_ATTEMPTS - 1 + n
  }

  ghost predicate Budgeted(n: nat, w: World) {
    C.Capped(w.c.outbox) && |w.workers| <= n && Orderly(w.workers, w.nextId, w.c.outbox.Keys)
      && Counted(w.c.outbox, w.log)
    && Within(n, w.c.outbox, w.workers)
  }

  lemma HoldersAreFew(workers: map<nat, Worker>, k: Key)
    ensures |Holders(workers, k)| <= |workers|
  {
    SubsetIsSmaller(Holders(workers, k), workers.Keys);
  }

  lemma FewerHolders(before: map<nat, Worker>, after: map<nat, Worker>, k: Key)
    requires forall id :: id in after && k in after[id].left ==> id in before && k in before[id].left
    ensures |Holders(after, k)| <= |Holders(before, k)|
  {
    SubsetIsSmaller(Holders(after, k), Holders(before, k));
  }

  /** Rows at the cap are handed to no further drain, and no counter moves. */
  lemma WithinKept(n: nat, before: map<Key, Row>, after: map<Key, Row>, workers: map<nat, Worker>,
                   workers': map<nat, Worker>)
    requires Within(n, before, workers)
    requires forall k :: k in after ==>
               after[k].executionAttempts == if k in before then before[k].executionAttempts else 0
    requires forall id, k :: (id in workers' && k in workers'[id].left && k in before
                              && before[k].executionAttempts >= C.MAX_EXECUTION_ATTEMPTS)
                             ==> id in workers && k in workers[id].left
    ensures Within(n, after, workers')
  {
    hide Holders;
    forall k | k in after && after[k].executionAttempts >= C.MAX_EXECUTION_ATTEMPTS
      ensures after[k].executionAttempts + |Holders(workers', k)| <= C.MAX_EXECUTION_ATTEMPTS - 1 + n
    {
      FewerHolders(workers, workers', k);
    }
  }

  lemma {:induction false} CountedKept(outbox: map<Key, Row>, log: seq<Obs>, o: Obs)
    requires Counted(outbox, log) && !o.Recorded?
    ensures Counted(outbox, log + [o])
  {
    hide Failures;
    forall k ensures Failures(log + [o], k) == Failures(log, k) { OneMoreFailure(log, o, k); }
  }

  lemma WritesKeepBudget(n: nat, w: World, x: T.Write)
    requires Budgeted(n, w) && Enabled(n, w, GraphWrite(x))
    ensures Budgeted(n, Next(n, w, GraphWrite(x)))
  {
    hide Failures, Within, Holders;
    var w' := Next(n, w, GraphWrite(x));
    if x.ClaimWrite? {
      C.EveryWriteKeepsTheCap(w.c.outbox, x.key, x.supplier);
    }
    WithinKept(n, w.c.outbox, w'.c.outbox, w.workers, w'.workers);
  }

  lemma ReadKeepsBudget(n: nat, w: World, id: nat)
    requires Budgeted(n, w) && Enabled(n, w, ReadLedger(id))
    ensures Budgeted(n, Next(n, w, ReadLedger(id)))
  {
    hide Failures, Counted, Within, Holders;
    var w' := Next(n, w, ReadLedger(id));
    CountedKept(w.c.outbox, w.log, LedgerRead(id, w.c.outbox));
    SameKeys(w.workers, w'.workers);
    WithinKept(n, w.c.outbox, w.c.outbox, w.workers, w'.workers);
  }

  lemma SameKeys(a: map<nat, Worker>, b: map<nat, Worker>)
    requires a.Keys == b.Keys
    ensures |a| == |b|
  {
    assert |a| == |a.Keys| && |b| == |b.Keys|;
  }

  lemma RecordKeepsBudget(n: nat, w: World, id: nat)
    requires Budgeted(n, w) && Enabled(n, w, Record(id))
    ensures Budgeted(n, AfterRecord(w, id))
  {
    hide Within, Counted, C.Capped, Failures;
    var x := w.workers[id].call.value;
    var w' := AfterRecord(w, id);
    C.EveryWriteKeepsTheCap(w.c.outbox, x.key, "");
    SameKeys(w.workers, w'.workers);
    RecordIsCounted(w, id);
    RecordStaysWithin(n, w, id);
    assert w'.c.outbox.Keys == w.c.outbox.Keys;
  }

  lemma RecordIsCounted(w: World, id: nat)
    requires Counted(w.c.outbox, w.log) && Enabled(0, w, Record(id))
    ensures Counted(AfterRecord(w, id).c.outbox, AfterRecord(w, id).log)
  {
    hide Failures;
    var x := w.workers[id].call.value;
    var o := Recorded(x.key, x.ok.value);
    forall k ensures Failures(w.log + [o], k) == Failures(w.log, k) + if o == Recorded(k, false) then 1 else 0 {
      OneMoreFailure(w.log, o, k);
    }
  }

  lemma RecordStaysWithin(n: nat, w: World, id: nat)
    requires Within(n, w.c.outbox, w.workers) && Orderly(w.workers, w.nextId, w.c.outbox.Keys) && |w.workers| <= n
    requires Enabled(n, w, Record(id))
    ensures Within(n, AfterRecord(w, id).c.outbox, AfterRecord(w, id).workers)
  {
    var k := w.workers[id].call.value.key;
    var w' := AfterRecord(w, id);
    HoldersAreFew(w.workers, k);
    assert Holders(w'.workers, k) == Holders(w.workers, k) - {id} && id in Holders(w.workers, k);
    forall o | o in w.c.outbox && o != k ensures |Holders(w'.workers, o)| <= |Holders(w.workers, o)| {
      FewerHolders(w.workers, w'.workers, o);
    }
  }

  lemma CallStepsKeepBudget(n: nat, w: World, s: Step)
    requires Budgeted(n, w) && Enabled(n, w, s) && (s.Refuse? || s.Start? || s.Respond?)
    ensures Budgeted(n, Next(n, w, s))
  {
    hide C.Capped, Within, Counted, Failures, R.Cleared, R.Permitted, Requested, Returns, E.Apply, Holders;
    var w' := Next(n, w, s);
    if w'.log != w.log {
      var o := w'.log[|w.log|];
      assert w'.log == w.log + [o];
      CountedKept(w.c.outbox, w.log, o);
    }
    SameKeys(w.workers, w'.workers);
    WithinKept(n, w.c.outbox, w'.c.outbox, w.workers, w'.workers);
  }

  lemma CaseStepsKeepBudget(n: nat, w: World, s: Step)
    requires Budgeted(n, w) && Enabled(n, w, s) && (s.Deliver? || s.Mark? || s.Decide? || s.Land?)
    ensures Budgeted(n, Next(n, w, s))
  {
    hide C.Capped, Within, Counted, Failures, Orderly, E.Apply;
    var w' := Next(n, w, s);
    if w'.log != w.log {
      var o := w'.log[|w.log|];
      assert w'.log == w.log + [o];
      CountedKept(w.c.outbox, w.log, o);
    }
    assert w'.c.outbox == w.c.outbox;
  }

  lemma BeginKeepsBudget(n: nat, w: World)
    requires Budgeted(n, w) && Enabled(n, w, Begin)
    ensures Budgeted(n, Next(n, w, Begin))
  {
    hide C.Capped, Within, Counted, Failures, Holders;
    var w' := Next(n, w, Begin);
    CountedKept(w.c.outbox, w.log, CaseRead(w.nextId, w.c));
    OneMoreWorker(w.workers, w.nextId, w'.workers[w.nextId]);
    WithinKept(n, w.c.outbox, w'.c.outbox, w.workers, w'.workers);
  }

  lemma StopKeepsBudget(n: nat, w: World, id: nat)
    requires Budgeted(n, w) && Enabled(n, w, Stop(id))
    ensures Budgeted(n, AfterStop(w, id))
  {
    hide C.Capped, Within, Counted, Failures, Holders;
    var w' := AfterStop(w, id);
    if w'.log != w.log {
      var o := w'.log[|w.log|];
      assert w'.log == w.log + [o];
      CountedKept(w.c.outbox, w.log, o);
    }
    FewerWorkers(w.workers, w'.workers);
    WithinKept(n, w.c.outbox, w'.c.outbox, w.workers, w'.workers);
  }

  lemma FewerWorkers(before: map<nat, Worker>, after: map<nat, Worker>)
    requires after.Keys <= before.Keys
    ensures |after| <= |before|
  {
    SubsetIsSmaller(after.Keys, before.Keys);
  }

  lemma OneMoreWorker(workers: map<nat, Worker>, id: nat, x: Worker)
    requires id !in workers
    ensures |workers[id := x]| == |workers| + 1
  {
    assert workers[id := x].Keys == workers.Keys + {id};
  }

  lemma {:induction false} RunsAreBudgeted(n: nat, supplier: string, steps: seq<Step>)
    ensures Budgeted(n, Run(n, supplier, steps))
    decreases |steps|
  {
    hide Budgeted, Next, Enabled;
    if |steps| == 0 {
      InitialIsBudgeted(n, supplier);
    } else {
      var w := Run(n, supplier, steps[..|steps| - 1]);
      var s := steps[|steps| - 1];
      RunsAreBudgeted(n, supplier, steps[..|steps| - 1]);
      if Enabled(n, w, s) {
        if s.GraphWrite? { WritesKeepBudget(n, w, s.w); }
        else if s.ReadLedger? { ReadKeepsBudget(n, w, s.id); }
        else if s.Record? { RecordStep(n, w, s); RecordKeepsBudget(n, w, s.id); }
        else if s.Begin? { BeginKeepsBudget(n, w); }
        else if s.Stop? { StopStep(n, w, s.id); StopKeepsBudget(n, w, s.id); }
        else if s.Refuse? || s.Start? || s.Respond? { CallStepsKeepBudget(n, w, s); }
        else { CaseStepsKeepBudget(n, w, s); }
      }
    }
  }

  lemma InitialIsBudgeted(n: nat, supplier: string)
    ensures Budgeted(n, Initial(supplier))
  {
  }

  lemma StopStep(n: nat, w: World, id: nat)
    requires Enabled(n, w, Stop(id))
    ensures id in w.workers && Next(n, w, Stop(id)) == AfterStop(w, id)
  {
  }

  lemma RecordStep(n: nat, w: World, s: Step)
    requires s.Record? && Enabled(n, w, s)
    ensures Enabled(0, w, Record(s.id)) && Next(n, w, s) == AfterRecord(w, s.id)
  {
  }

  lemma StepParksLate(n: nat, w: World, s: Step)
    requires C.ParkedLate(w.c.outbox) && Enabled(n, w, s)
    ensures C.ParkedLate(Next(n, w, s).c.outbox)
  {
    hide C.ParkedLate;
    if s.GraphWrite? && s.w.ClaimWrite? { C.EveryWriteParksLate(w.c.outbox, s.w.key, s.w.supplier); }
    else if s.Record? { C.EveryWriteParksLate(w.c.outbox, w.workers[s.id].call.value.key, ""); }
    else if s.Stop? { StopStep(n, w, s.id); }
    else { assert Next(n, w, s).c.outbox == w.c.outbox; }
  }

  lemma NothingParkedYet(supplier: string)
    ensures C.ParkedLate(Initial(supplier).c.outbox)
  {
  }

  lemma {:induction false} RunsParkLate(n: nat, supplier: string, steps: seq<Step>)
    ensures C.ParkedLate(Run(n, supplier, steps).c.outbox)
  {
    hide Next, Enabled, C.ParkedLate;
    if |steps| == 0 {
      NothingParkedYet(supplier);
    } else {
      var w := Run(n, supplier, steps[..|steps| - 1]);
      RunsParkLate(n, supplier, steps[..|steps| - 1]);
      if Enabled(n, w, steps[|steps| - 1]) { StepParksLate(n, w, steps[|steps| - 1]); }
    }
  }

  /** Retry stays bounded under any overlap of at most `n` drains: the counter is exactly the number of recorded
      failures, a row with five of them is done or dead, a row is dead only with five, and no counter passes 4 + n. */
  lemma RetryIsBounded(n: nat, supplier: string, steps: seq<Step>, k: Key)
    requires k in Run(n, supplier, steps).c.outbox
    ensures var w := Run(n, supplier, steps);
            w.c.outbox[k].executionAttempts == Failures(w.log, k)
            && (w.c.outbox[k].executionAttempts >= 5 ==> C.Settled(w.c.outbox[k].status))
            && (w.c.outbox[k].status == Dead ==> w.c.outbox[k].executionAttempts >= 5)
            && w.c.outbox[k].executionAttempts <= 4 + n
  {
    hide Run, Failures;
    RunsAreBudgeted(n, supplier, steps);
    RunsParkLate(n, supplier, steps);
  }

  /* ---- a drain that reads the ledger late makes no call ---- */

  /** The log up to position `j`. */
  function UpTo(log: seq<Obs>, j: nat): seq<Obs> {
    if j <= |log| then log[..j] else log
  }

  /** A ledger as read at position `j`: counters are the failures recorded so far, used-up rows are settled. */
  ghost predicate TrueReading(log: seq<Obs>, j: nat, ledger: map<Key, Row>) {
    C.Capped(ledger) && forall k :: k in ledger ==> ledger[k].executionAttempts == Failures(UpTo(log, j), k)
  }

  ghost predicate ReadOnce(log: seq<Obs>, workers: map<nat, Worker>, nextId: nat) {
    forall j :: 0 <= j < |log| && log[j].LedgerRead? ==>
      log[j].id < nextId && (log[j].id in workers ==> workers[log[j].id].ledger == Some(log[j].ledger))
      && TrueReading(log, j, log[j].ledger)
  }

  ghost predicate HasRead(log: seq<Obs>, i: nat, id: nat) {
    exists j :: 0 <= j < i && j < |log| && log[j].LedgerRead? && log[j].id == id
  }

  ghost predicate CallsFollowReads(log: seq<Obs>) {
    forall i, j ::
      (0 <= i < |log| && 0 <= j < |log| && log[i].Called? && log[j].LedgerRead? && log[j].id == log[i].id)
      ==> j < i && log[i].key in Open(log[j].ledger)
  }

  ghost predicate CallersHaveRead(log: seq<Obs>) {
    forall i :: 0 <= i < |log| && log[i].Called? ==> HasRead(log, i, log[i].id)
  }

  ghost predicate DrainsHaveRead(log: seq<Obs>, workers: map<nat, Worker>, nextId: nat) {
    forall id :: id in workers ==>
      id < nextId
      && (workers[id].ledger.Some? <==> HasRead(log, |log|, id))
      && workers[id].left <= (if workers[id].ledger.Some? then Open(workers[id].ledger.value) else {})
  }

  ghost predicate LateDrainsIdle(w: World) {
    ReadOnce(w.log, w.workers, w.nextId) && CallsFollowReads(w.log) && CallersHaveRead(w.log)
    && DrainsHaveRead(w.log, w.workers, w.nextId)
  }

  lemma ReadsPersist(log: seq<Obs>, o: Obs)
    ensures forall i: nat, id :: i <= |log| ==> (HasRead(log + [o], i, id) <==> HasRead(log, i, id))
    ensures forall id :: HasRead(log + [o], |log| + 1, id) <==> HasRead(log, |log|, id) || (o.LedgerRead? && o.id == id)
    ensures forall j: nat, ledger :: j <= |log| ==> (TrueReading(log + [o], j, ledger) <==> TrueReading(log, j, ledger))
  {
    hide C.Capped, Failures;
    var longer := log + [o];
    forall i: nat, id | i <= |log| ensures HasRead(longer, i, id) <==> HasRead(log, i, id) {
      if HasRead(longer, i, id) {
        var j :| 0 <= j < i && j < |longer| && longer[j].LedgerRead? && longer[j].id == id;
        assert log[j] == longer[j];
      }
      if HasRead(log, i, id) {
        var j :| 0 <= j < i && j < |log| && log[j].LedgerRead? && log[j].id == id;
        assert log[j] == longer[j];
      }
    }
    forall id ensures HasRead(longer, |log| + 1, id) <==> HasRead(log, |log|, id) || (o.LedgerRead? && o.id == id) {
      if o.LedgerRead? && o.id == id { assert longer[|log|] == o; }
      if HasRead(log, |log|, id) {
        var j :| 0 <= j < |log| && log[j].LedgerRead? && log[j].id == id;
        assert log[j] == longer[j];
      }
      if j :| 0 <= j < |log| && longer[j].LedgerRead? && longer[j].id == id {
        assert log[j] == longer[j];
      }
    }
    forall j: nat | j <= |log| ensures UpTo(longer, j) == UpTo(log, j) {
      assert longer[..j] == log[..j];
    }
  }

  /** Workers that keep what they have read. */
  ghost predicate KeepReading(workers: map<nat, Worker>, workers': map<nat, Worker>, nextId: nat) {
    forall id :: id in workers' && id < nextId ==>
      id in workers && (workers[id].ledger.Some? ==> workers'[id].ledger == workers[id].ledger)
  }

  lemma ReadOnceGrows(log: seq<Obs>, o: Obs, workers: map<nat, Worker>, workers': map<nat, Worker>, nextId: nat,
                      nextId': nat)
    requires ReadOnce(log, workers, nextId) && nextId <= nextId' && KeepReading(workers, workers', nextId)
    requires o.LedgerRead? ==>
               o.id < nextId && (o.id in workers' ==> workers'[o.id].ledger == Some(o.ledger))
                 && TrueReading(log, |log|, o.ledger)
    ensures ReadOnce(log + [o], workers', nextId')
  {
    hide TrueReading;
    ReadsPersist(log, o);
    var longer := log + [o];
    forall j | 0 <= j < |longer| && longer[j].LedgerRead?
      ensures longer[j].id < nextId'
              && (longer[j].id in workers' ==> workers'[longer[j].id].ledger == Some(longer[j].ledger))
              && TrueReading(longer, j, longer[j].ledger)
    {
      if j < |log| { assert longer[j] == log[j]; }
    }
  }

  lemma CallsGrow(log: seq<Obs>, o: Obs)
    requires CallsFollowReads(log) && CallersHaveRead(log)
    requires o.LedgerRead? ==> forall i :: 0 <= i < |log| && log[i].Called? ==> log[i].id != o.id
    requires o.Called? ==> HasRead(log, |log|, o.id)
    requires o.Called? ==> forall j :: 0 <= j < |log| && log[j].LedgerRead? && log[j].id == o.id ==>
               o.key in Open(log[j].ledger)
    ensures CallsFollowReads(log + [o]) && CallersHaveRead(log + [o])
  {
    hide Open, HasRead;
    ReadsPersist(log, o);
    var longer := log + [o];
    assert forall i :: 0 <= i < |log| ==> longer[i] == log[i];
    assert longer[|log|] == o;
  }

  /** A step that starts no call, reads no ledger and lets no drain take on more. */
  lemma IdlingKeepsLate(w: World, w': World)
    requires LateDrainsIdle(w) && w'.nextId == w.nextId && KeepReading(w.workers, w'.workers, w.nextId)
    requires w'.log == w.log || exists o :: w'.log == w.log + [o] && !o.LedgerRead? && !o.Called?
    requires forall id :: id in w'.workers ==>
               id in w.workers && w'.workers[id].ledger == w.workers[id].ledger
                 && w'.workers[id].left <= w.workers[id].left
    ensures LateDrainsIdle(w')
  {
    hide CallsFollowReads, CallersHaveRead, ReadOnce, HasRead, Open;
    if w'.log != w.log {
      var o :| w'.log == w.log + [o] && !o.LedgerRead? && !o.Called?;
      ReadOnceGrows(w.log, o, w.workers, w'.workers, w.nextId, w'.nextId);
      CallsGrow(w.log, o);
      ReadsPersist(w.log, o);
    } else {
      ReadOnceKept(w.log, w.workers, w'.workers, w.nextId);
    }
  }

  /** The steps that neither start a call nor read the ledger. */
  lemma IdleStepsKeepLate(n: nat, w: World, s: Step)
    requires LateDrainsIdle(w) && Enabled(n, w, s) && !s.ReadLedger? && !s.Start? && !s.Begin?
    ensures LateDrainsIdle(Next(n, w, s))
  {
    hide LateDrainsIdle, Requested, Returns, E.Apply, Open, R.Cleared, R.Permitted;
    var w' := Next(n, w, s);
    if w'.log != w.log {
      var o := w'.log[|w.log|];
      assert w'.log == w.log + [o] && !o.LedgerRead? && !o.Called?;
    }
    assert LateDrainsIdle(w) ==> forall id :: id in w.workers ==> id < w.nextId by { LateIds(w); }
    IdlingKeepsLate(w, w');
  }

  lemma LateIds(w: World)
    ensures LateDrainsIdle(w) ==> forall id :: id in w.workers ==> id < w.nextId
  {
  }

  lemma ReadOnceKept(log: seq<Obs>, workers: map<nat, Worker>, workers': map<nat, Worker>, nextId: nat)
    requires ReadOnce(log, workers, nextId) && KeepReading(workers, workers', nextId)
    ensures ReadOnce(log, workers', nextId)
  {
  }

  lemma BeginKeepsLate(n: nat, w: World)
    requires LateDrainsIdle(w) && Enabled(n, w, Begin)
    ensures LateDrainsIdle(Next(n, w, Begin))
  {
    hide CallsFollowReads, CallersHaveRead, ReadOnce, HasRead, Failures, Open;
    var w' := Next(n, w, Begin);
    var o := CaseRead(w.nextId, w.c);
    ReadOnceGrows(w.log, o, w.workers, w'.workers, w.nextId, w'.nextId);
    CallsGrow(w.log, o);
    ReadsPersist(w.log, o);
    NewDrainsHaveRead(w.log, w.workers, w.nextId);
  }

  /** A drain that has not begun has read nothing. */
  lemma NewDrainsHaveRead(log: seq<Obs>, workers: map<nat, Worker>, nextId: nat)
    requires ReadOnce(log, workers, nextId)
    ensures !HasRead(log, |log|, nextId)
  {
  }

  lemma StartKeepsLate(n: nat, w: World, id: nat, k: Key)
    requires LateDrainsIdle(w) && Enabled(n, w, Start(id, k))
    ensures LateDrainsIdle(Next(n, w, Start(id, k)))
  {
    hide CallsFollowReads, CallersHaveRead, HasRead, Failures, TrueReading, R.Cleared, R.Permitted, Open;
    var w' := Next(n, w, Start(id, k));
    var o := Called(id, k);
    ReadOnceGrows(w.log, o, w.workers, w'.workers, w.nextId, w'.nextId);
    CallsGrow(w.log, o);
    ReadsPersist(w.log, o);
  }

  lemma ReadKeepsLate(n: nat, w: World, id: nat)
    requires LateDrainsIdle(w) && Budgeted(n, w) && Enabled(n, w, ReadLedger(id))
    ensures LateDrainsIdle(Next(n, w, ReadLedger(id)))
  {
    hide CallsFollowReads, CallersHaveRead, ReadOnce, HasRead, Failures, C.Capped, Within, Orderly, Open;
    var w' := Next(n, w, ReadLedger(id));
    var o := LedgerRead(id, w.c.outbox);
    assert w.log[..|w.log|] == w.log;
    ReadOnceGrows(w.log, o, w.workers, w'.workers, w.nextId, w'.nextId);
    NoCallBeforeReading(w.log, id);
    CallsGrow(w.log, o);
    ReadsPersist(w.log, o);
  }

  lemma NoCallBeforeReading(log: seq<Obs>, id: nat)
    requires CallersHaveRead(log) && !HasRead(log, |log|, id)
    ensures forall i :: 0 <= i < |log| && log[i].Called? ==> log[i].id != id
  {
    forall i | 0 <= i < |log| && log[i].Called? ensures log[i].id != id {
      var j :| 0 <= j < i && j < |log| && log[j].LedgerRead? && log[j].id == log[i].id;
    }
  }

  lemma NothingReadYet(supplier: string)
    ensures LateDrainsIdle(Initial(supplier))
  {
  }

  lemma {:induction false} RunsKeepLateDrainsIdle(n: nat, supplier: string, steps: seq<Step>)
    ensures LateDrainsIdle(Run(n, supplier, steps))
    decreases |steps|
  {
    hide Budgeted, Next, Enabled, LateDrainsIdle;
    if |steps| == 0 {
      NothingReadYet(supplier);
    } else {
      var init := steps[..|steps| - 1];
      var w := Run(n, supplier, init);
      var s := steps[|steps| - 1];
      RunsKeepLateDrainsIdle(n, supplier, init);
      RunsAreBudgeted(n, supplier, init);
      if Enabled(n, w, s) {
        if s.ReadLedger? { ReadKeepsLate(n, w, s.id); }
        else if s.Start? { StartKeepsLate(n, w, s.id, s.key); }
        else if s.Begin? { BeginKeepsLate(n, w); }
        else { IdleStepsKeepLate(n, w, s); }
      }
    }
  }

  /** Every call to the ERP is made by a drain that has read the ledger, and has done so before any fifth failure
      of that row was recorded: a drain that reads the ledger later makes no call for it, whatever else is in flight. */
  lemma LateDrainsMakeNoCall(n: nat, supplier: string, steps: seq<Step>, i: nat)
    requires i < |Run(n, supplier, steps).log| && Run(n, supplier, steps).log[i].Called?
    ensures var log := Run(n, supplier, steps).log;
            HasRead(log, i, log[i].id)
            && forall j :: 0 <= j < |log| && log[j].LedgerRead? && log[j].id == log[i].id ==>
                 j < i && Failures(log[..j], log[i].key) < 5
  {
    hide Run, Failures;
    RunsKeepLateDrainsIdle(n, supplier, steps);
  }
}
