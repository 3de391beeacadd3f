/** One drain at a time, which may crash and lose responses at any point: it works on open rows for the case's supplier,
    and settled rows stay settled. */
module Serialized {

  import opened Basics
  import opened Store
  import opened Protocol
  import C = Commands
  import E = Erp
  import R = Runner

  /* ---- one drain at a time ---- */

  /** Rows are for the case's supplier, if it names one. */
  ghost predicate RowsNameTheSupplier(supplier: string, outbox: map<Key, Row>) {
    supplier != "" ==> forall k :: k in outbox ==> outbox[k].supplier == supplier
  }

  /** A drain that is alone works on rows that are still open, for the supplier of the case. */
  ghost predicate HoldsOpenRows(supplier: string, outbox: map<Key, Row>, x: Worker) {
    x.left <= Open(outbox)
    && (x.ledger.Some? ==> RowsNameTheSupplier(supplier, x.ledger.value))
    && (x.call.Some? ==>
          x.call.value.key in x.left && (supplier != "" ==> x.call.value.supplier == supplier) && x.ledger.Some?)
  }

  /** So are the requests adrift. */
  ghost predicate AdriftFits(supplier: string, outbox: map<Key, Row>, adrift: multiset<Call>) {
    forall x :: x in adrift ==> x.key in outbox && (supplier != "" ==> x.supplier == supplier)
  }

  ghost predicate Serial(supplier: string, w: World) {
    w.c.supplier == supplier && RowsNameTheSupplier(supplier, w.c.outbox) && AdriftFits(supplier, w.c.outbox, w.adrift)
    && |w.workers| <= 1
    && forall id :: id in w.workers ==> id < w.nextId && HoldsOpenRows(supplier, w.c.outbox, w.workers[id])
  }

  lemma OnlyOne(workers: map<nat, Worker>, a: nat, b: nat)
    requires |workers| <= 1 && a in workers && b in workers
    ensures a == b
  {
    if a != b {
      var two := {a, b};
      assert two <= workers.Keys;
      SubsetIsSmaller(two, workers.Keys);
    }
  }

  lemma WorkerCount(before: map<nat, Worker>, after: map<nat, Worker>)
    ensures after.Keys <= before.Keys ==> |after| <= |before|
    ensures forall id :: id !in before && after.Keys == before.Keys + {id} ==> |after| == |before| + 1
  {
    if after.Keys <= before.Keys {
      SubsetIsSmaller(after.Keys, before.Keys);
    }
  }

  /** With one drain at a time no step touches a settled row. */
  ghost predicate SettledKept(before: map<Key, Row>, after: map<Key, Row>) {
    forall k :: k in before && C.Settled(before[k].status) ==> k in after && after[k] == before[k]
  }

  lemma CaseStepsStaySerial(supplier: string, w: World, s: Step)
    requires Serial(supplier, w) && Enabled(1, w, s) && (s.Deliver? || s.Mark? || s.GraphWrite? || s.Decide?)
    ensures Serial(supplier, Next(1, w, s)) && SettledKept(w.c.outbox, Next(1, w, s).c.outbox)
  {
    var w' := Next(1, w, s);
    assert w'.c.supplier == w.c.supplier && w'.workers == w.workers && w'.nextId == w.nextId;
    assert Open(w.c.outbox) <= Open(w'.c.outbox);
  }

  lemma DrainsStaySerial(supplier: string, w: World, s: Step)
    requires Serial(supplier, w) && Enabled(1, w, s) && (s.Begin? || s.ReadLedger?)
    ensures Serial(supplier, Next(1, w, s)) && SettledKept(w.c.outbox, Next(1, w, s).c.outbox)
  {
    hide RowsNameTheSupplier, AdriftFits;
    var w' := Next(1, w, s);
    assert w'.c == w.c && w'.adrift == w.adrift;
    WorkerCount(w.workers, w'.workers);
  }

  lemma CallsStaySerial(supplier: string, w: World, s: Step)
    requires Serial(supplier, w) && Enabled(1, w, s) && (s.Refuse? || s.Start?)
    ensures Serial(supplier, Next(1, w, s)) && SettledKept(w.c.outbox, Next(1, w, s).c.outbox)
  {
    hide R.Cleared, R.Permitted, Open, AdriftFits;
    var w' := Next(1, w, s);
    assert w'.c == w.c && w'.adrift == w.adrift;
    WorkerCount(w.workers, w'.workers);
  }

  lemma RespondStaysSerial(supplier: string, w: World, id: nat, a: E.Answer)
    requires Serial(supplier, w) && Enabled(1, w, Respond(id, a))
    ensures Serial(supplier, AfterResponse(w, id, a)) && SettledKept(w.c.outbox, AfterResponse(w, id, a).c.outbox)
  {
    hide Requested, Returns, E.Apply, Open, RowsNameTheSupplier;
    var w' := AfterResponse(w, id, a);
    CallIsOpen(supplier, w, id);
    WorkerCount(w.workers, w'.workers);
  }

  lemma EndsStaySerial(supplier: string, w: World, s: Step)
    requires Serial(supplier, w) && Enabled(1, w, s) && (s.Stop? || s.Land?)
    ensures Serial(supplier, Next(1, w, s)) && SettledKept(w.c.outbox, Next(1, w, s).c.outbox)
  {
    hide E.Apply, Open, RowsNameTheSupplier, HoldsOpenRows;
    var w' := Next(1, w, s);
    assert w'.c == w.c;
    if s.Stop? && w.workers[s.id].call.Some? { CallIsOpen(supplier, w, s.id); }
    WorkerCount(w.workers, w'.workers);
  }

  lemma CallIsOpen(supplier: string, w: World, id: nat)
    requires Serial(supplier, w) && id in w.workers && w.workers[id].call.Some?
    ensures var x := w.workers[id].call.value;
            x.key in w.c.outbox && (supplier != "" ==> x.supplier == supplier) && |w.workers| <= 1
            && !C.Settled(w.c.outbox[x.key].status)
  {
  }

  lemma RecordStaysSerial(supplier: string, w: World, id: nat)
    requires Serial(supplier, w) && Enabled(1, w, Record(id))
    ensures Serial(supplier, AfterRecord(w, id)) && SettledKept(w.c.outbox, AfterRecord(w, id).c.outbox)
  {
    var w' := AfterRecord(w, id);
    WorkerCount(w.workers, w'.workers);
    forall o | o in w.workers ensures o == id { OnlyOne(w.workers, o, id); }
  }

  lemma StepStaysSerial(supplier: string, w: World, s: Step)
    requires Serial(supplier, w) && Enabled(1, w, s)
    ensures Serial(supplier, Next(1, w, s)) && SettledKept(w.c.outbox, Next(1, w, s).c.outbox)
  {
    hide Serial, SettledKept;
    if s.Deliver? || s.Mark? || s.GraphWrite? || s.Decide? { CaseStepsStaySerial(supplier, w, s); }
    else if s.Record? { RecordStaysSerial(supplier, w, s.id); }
    else if s.Begin? || s.ReadLedger? { DrainsStaySerial(supplier, w, s); }
    else if s.Respond? { RespondStaysSerial(supplier, w, s.id, s.answer); }
    else if s.Stop? || s.Land? { EndsStaySerial(supplier, w, s); }
    else { CallsStaySerial(supplier, w, s); }
  }

  lemma {:induction false} SerialRuns(n: nat, supplier: string, start: World, steps: seq<Step>)
    requires n <= 1 && Serial(supplier, start)
    ensures Serial(supplier, RunFrom(n, start, steps)) && SettledKept(start.c.outbox, RunFrom(n, start, steps).c.outbox)
    decreases |steps|
  {
    hide Serial, Enabled, Next;
    if |steps| > 0 {
      var w := RunFrom(n, start, steps[..|steps| - 1]);
      SerialRuns(n, supplier, start, steps[..|steps| - 1]);
      if Enabled(n, w, steps[|steps| - 1]) {
        FewerDrainsAllowed(n, w, steps[|steps| - 1]);
        StepStaysSerial(supplier, w, steps[|steps| - 1]);
      }
    }
  }

  lemma FewerDrainsAllowed(n: nat, w: World, s: Step)
    requires n <= 1 && Enabled(n, w, s)
    ensures Enabled(1, w, s) && Next(1, w, s) == Next(n, w, s)
  {
  }

  /** With serialized drains a done or dead row never changes again, whatever else happens to the case. */
  lemma SettledIsAbsorbing(n: nat, supplier: string, steps: seq<Step>, more: seq<Step>, k: Key)
    requires n <= 1
    requires k in Run(n, supplier, steps).c.outbox && C.Settled(Run(n, supplier, steps).c.outbox[k].status)
    ensures k in Run(n, supplier, steps + more).c.outbox
            && Run(n, supplier, steps + more).c.outbox[k] == Run(n, supplier, steps).c.outbox[k]
  {
    hide RunFrom;
    InitialIsSerial(supplier);
    SerialRuns(n, supplier, Initial(supplier), steps);
    SerialRuns(n, supplier, Run(n, supplier, steps), more);
    RunsCompose(n, Initial(supplier), steps, more);
  }

  lemma InitialIsSerial(supplier: string)
    ensures Serial(supplier, Initial(supplier))
  {
  }
}
