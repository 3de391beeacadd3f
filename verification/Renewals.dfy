/** Messages cannot be looked up before they are sent, so a lost acknowledgement costs one repetition - and nothing
    else does. */
module Renewals {

  import opened Basics
  import opened Store
  import opened Protocol
  import opened Serialized
  import opened ExactlyOnce
  import E = Erp
  import L = Lifecycle
  import R = Runner

  /** The ERP sent the message of command `k`. */
  function Sent(k: Key): Obs -> bool {
    (o: Obs) => (o.Answered? && o.key == k && o.applied) || o == Landed(k)
  }

  /** It was sent, but no drain got to know: the response did not say so, the drain died on it, or it landed late. */
  function Lost(k: Key): Obs -> bool {
    (o: Obs) => (o.Answered? && o.key == k && o.applied && !o.ok) || o == AckLost(k) || o == Landed(k)
  }

  function Finished(k: Key): Obs -> bool {
    (o: Obs) => o == Recorded(k, true)
  }

  function Messages(): Obs -> bool {
    (o: Obs) => ((o.Answered? && o.applied) || o.Landed?) && o.key.action == L.RequestRenewal
  }

  /** A returned call for `k` that is still to be recorded. */
  ghost predicate Unrecorded(workers: map<nat, Worker>, k: Key) {
    exists id :: id in workers && workers[id].call.Some? && workers[id].call.value.key == k
      && workers[id].call.value.ok == Some(true)
  }

  ghost predicate IsDone(outbox: map<Key, Row>, k: Key) {
    k in outbox && outbox[k].status == Done
  }

  ghost predicate Accounted(log: seq<Obs>, workers: map<nat, Worker>, outbox: map<Key, Row>, k: Key) {
    Count(log, Sent(k)) == Count(log, Lost(k)) + Count(log, Finished(k)) + (if Unrecorded(workers, k) then 1 else 0)
    && Count(log, Finished(k)) == if IsDone(outbox, k) then 1 else 0
  }

  ghost predicate Balanced(supplier: string, w: World) {
    (forall k: Key :: k.action == L.RequestRenewal ==> Accounted(w.log, w.workers, w.c.outbox, k))
    && Count(w.log, Messages()) == |w.records.mails|
      && (supplier != "" ==> w.records.mails[supplier] == |w.records.mails|)
  }

  /** An observation that says nothing about messages. */
  ghost predicate Silent(o: Obs) {
    !(o.Answered? && o.key.action == L.RequestRenewal && o.applied) && !(o.AckLost? && o.key.action == L.RequestRenewal)
    && !(o.Recorded? && o.ok && o.key.action == L.RequestRenewal) && !(o.Landed? && o.key.action == L.RequestRenewal)
  }

  lemma SilentSteps(supplier: string, w: World, w': World)
    requires Balanced(supplier, w)
    requires w'.log == w.log || exists o :: w'.log == w.log + [o] && Silent(o)
    requires forall k: Key :: k.action == L.RequestRenewal ==>
               (IsDone(w'.c.outbox, k) <==> IsDone(w.c.outbox, k))
                 && (Unrecorded(w'.workers, k) <==> Unrecorded(w.workers, k))
    requires w'.records.mails == w.records.mails
    ensures Balanced(supplier, w')
  {
    hide Count, IsDone, Unrecorded;
    if w'.log != w.log {
      var o :| w'.log == w.log + [o] && Silent(o);
      CountOneMore(w.log, o, Messages());
      forall k: Key | k.action == L.RequestRenewal ensures Accounted(w'.log, w'.workers, w'.c.outbox, k) {
        CountOneMore(w.log, o, Sent(k));
        CountOneMore(w.log, o, Lost(k));
        CountOneMore(w.log, o, Finished(k));
      }
    }
  }

  lemma CaseStepsStayBalanced(supplier: string, w: World, s: Step)
    requires Balanced(supplier, w) && Enabled(1, w, s) && (s.Deliver? || s.Mark? || s.GraphWrite? || s.Decide?)
    ensures Balanced(supplier, Next(1, w, s))
  {
    hide Balanced, Unrecorded;
    var w' := Next(1, w, s);
    if w'.log != w.log {
      assert w'.log == w.log + [w'.log[|w.log|]] && Silent(w'.log[|w.log|]);
    }
    SilentSteps(supplier, w, w');
  }

  lemma DrainStepsStayBalanced(supplier: string, w: World, s: Step)
    requires Balanced(supplier, w) && Enabled(1, w, s) && (s.Begin? || s.ReadLedger? || s.Refuse? || s.Start?)
    requires forall id :: id in w.workers ==> id < w.nextId
    ensures Balanced(supplier, Next(1, w, s))
  {
    hide Balanced, R.Cleared, R.Permitted, IsDone, Open;
    var w' := Next(1, w, s);
    if w'.log != w.log {
      assert w'.log == w.log + [w'.log[|w.log|]] && Silent(w'.log[|w.log|]);
    }
    forall k: Key ensures Unrecorded(w'.workers, k) <==> Unrecorded(w.workers, k) {
      if Unrecorded(w.workers, k) {
        var id :| id in w.workers && w.workers[id].call.Some? && w.workers[id].call.value.key == k
          && w.workers[id].call.value.ok == Some(true);
        assert id in w'.workers && w'.workers[id].call == w.workers[id].call;
      }
    }
    SilentSteps(supplier, w, w');
  }

  lemma AloneUnrecorded(workers: map<nat, Worker>, id: nat)
    requires |workers| <= 1 && id in workers
    ensures forall k :: Unrecorded(workers, k) <==>
              workers[id].call.Some? && workers[id].call.value.key == k && workers[id].call.value.ok == Some(true)
  {
    forall o | o in workers ensures o == id { OnlyOne(workers, o, id); }
  }

  /** How one more observation moves the three counts of a command. */
  lemma RenewalCountsMove(log: seq<Obs>, o: Obs, k: Key)
    ensures Count(log + [o], Sent(k)) ==
              Count(log, Sent(k)) + if (o.Answered? && o.key == k && o.applied) || o == Landed(k) then 1 else 0
    ensures Count(log + [o], Lost(k)) ==
              Count(log, Lost(k))
              + if (o.Answered? && o.key == k && o.applied && !o.ok) || o == AckLost(k) || o == Landed(k) then 1 else 0
    ensures Count(log + [o], Finished(k)) == Count(log, Finished(k)) + if o == Recorded(k, true) then 1 else 0
  {
    hide Count;
    CountOneMore(log, o, Sent(k));
    CountOneMore(log, o, Lost(k));
    CountOneMore(log, o, Finished(k));
  }

  lemma RespondStaysBalanced(supplier: string, w: World, id: nat, a: E.Answer)
    requires Balanced(supplier, w) && Serial(supplier, w) && Enabled(1, w, Respond(id, a)) && Honest(w, Respond(id, a))
    ensures Balanced(supplier, AfterResponse(w, id, a))
  {
    hide Count, Serial, IsDone, Unrecorded;
    var w' := AfterResponse(w, id, a);
    var x := w.workers[id].call.value;
    var o := w'.log[|w.log|];
    assert w'.log == w.log + [o];
    CallIsOpen(supplier, w, id);
    WorkerCount(w.workers, w'.workers);
    AloneUnrecorded(w.workers, id);
    AloneUnrecorded(w'.workers, id);
    CountOneMore(w.log, o, Messages());
    forall k: Key | k.action == L.RequestRenewal ensures Accounted(w'.log, w'.workers, w'.c.outbox, k) {
      RenewalCountsMove(w.log, o, k);
    }
  }

  lemma RecordStaysBalanced(supplier: string, w: World, id: nat)
    requires Balanced(supplier, w) && Serial(supplier, w) && Enabled(1, w, Record(id))
    ensures Balanced(supplier, AfterRecord(w, id))
  {
    hide Count, Serial, Unrecorded, Open;
    var w' := AfterRecord(w, id);
    var o := w'.log[|w.log|];
    assert w'.log == w.log + [o];
    CallIsOpen(supplier, w, id);
    WorkerCount(w.workers, w'.workers);
    AloneUnrecorded(w.workers, id);
    AloneUnrecorded(w'.workers, id);
    CountOneMore(w.log, o, Messages());
    forall k: Key | k.action == L.RequestRenewal ensures Accounted(w'.log, w'.workers, w'.c.outbox, k) {
      RenewalCountsMove(w.log, o, k);
    }
  }

  lemma StopStaysBalanced(supplier: string, w: World, id: nat)
    requires Balanced(supplier, w) && Serial(supplier, w) && Enabled(1, w, Stop(id))
    ensures Balanced(supplier, AfterStop(w, id))
  {
    hide Count, IsDone;
    var w' := AfterStop(w, id);
    AloneUnrecorded(w.workers, id);
    forall o | o in w.workers ensures o == id { OnlyOne(w.workers, o, id); }
    assert w'.workers == map[];
    if w'.log == w.log {
      SilentSteps(supplier, w, w');
    } else {
      var o := w'.log[|w.log|];
      assert w'.log == w.log + [o];
      CountOneMore(w.log, o, Messages());
      forall k: Key | k.action == L.RequestRenewal ensures Accounted(w'.log, w'.workers, w'.c.outbox, k) {
        RenewalCountsMove(w.log, o, k);
      }
    }
  }

  lemma LandStaysBalanced(supplier: string, w: World, x: Call)
    requires Balanced(supplier, w) && Serial(supplier, w) && x in w.adrift
    ensures Balanced(supplier, AfterLanding(w, x))
  {
    hide Count, HoldsOpenRows, RowsNameTheSupplier, IsDone, Unrecorded;
    var w' := AfterLanding(w, x);
    CountOneMore(w.log, Landed(x.key), Messages());
    forall k: Key | k.action == L.RequestRenewal ensures Accounted(w'.log, w'.workers, w'.c.outbox, k) {
      RenewalCountsMove(w.log, Landed(x.key), k);
    }
  }

  lemma StepStaysBalanced(supplier: string, w: World, s: Step)
    requires Balanced(supplier, w) && Serial(supplier, w) && Enabled(1, w, s) && Honest(w, s)
    ensures Balanced(supplier, Next(1, w, s))
  {
    hide Balanced, Serial;
    if s.Deliver? || s.Mark? || s.GraphWrite? || s.Decide? { CaseStepsStayBalanced(supplier, w, s); }
    else if s.Record? { RecordStaysBalanced(supplier, w, s.id); }
    else if s.Respond? { RespondStaysBalanced(supplier, w, s.id, s.answer); }
    else if s.Stop? { StopStaysBalanced(supplier, w, s.id); }
    else if s.Land? { LandStaysBalanced(supplier, w, s.call); }
    else { SerialIds(supplier, w); DrainStepsStayBalanced(supplier, w, s); }
  }

  lemma SerialIds(supplier: string, w: World)
    requires Serial(supplier, w)
    ensures forall id :: id in w.workers ==> id < w.nextId
  {
  }

  lemma {:induction false} BalancedRuns(supplier: string, steps: seq<Step>)
    requires HonestRun(Initial(supplier), steps)
    ensures Balanced(supplier, Run(1, supplier, steps)) && Serial(supplier, Run(1, supplier, steps))
    decreases |steps|
  {
    hide Balanced, Serial, Enabled, Next, Honest;
    if |steps| == 0 {
      InitialIsBalanced(supplier);
    } else {
      var w := Run(1, supplier, steps[..|steps| - 1]);
      var s := steps[|steps| - 1];
      BalancedRuns(supplier, steps[..|steps| - 1]);
      if Enabled(1, w, s) {
        StepStaysBalanced(supplier, w, s);
        StepStaysSerial(supplier, w, s);
      }
    }
  }

  lemma InitialIsBalanced(supplier: string)
    ensures Balanced(supplier, Initial(supplier)) && Serial(supplier, Initial(supplier))
  {
  }

  /** With serialized drains and an honest ERP, a finished renewal request has sent exactly one message more than it
      lost acknowledgements, an unfinished one no more than one in flight beyond them, and the supplier's mailbox
      holds nothing but those messages. */
  lemma RenewalsAreSentOncePerLoss(supplier: string, steps: seq<Step>, k: Key)
    requires HonestRun(Initial(supplier), steps) && k.action == L.RequestRenewal
    ensures var w := Run(1, supplier, steps);
            var sent, lost := Count(w.log, Sent(k)), Count(w.log, Lost(k));
            (if IsDone(w.c.outbox, k) then sent == 1 + lost else lost <= sent <= lost + 1)
            && Count(w.log, Messages()) == |w.records.mails|
              && (supplier != "" ==> w.records.mails[supplier] == |w.records.mails|)
  {
    hide RunFrom, Count;
    BalancedRuns(supplier, steps);
    var w := Run(1, supplier, steps);
    assert Accounted(w.log, w.workers, w.c.outbox, k);
    if IsDone(w.c.outbox, k) {
      DoneIsNotInFlight(supplier, w, k);
    }
  }

  lemma DoneIsNotInFlight(supplier: string, w: World, k: Key)
    requires Serial(supplier, w) && IsDone(w.c.outbox, k)
    ensures !Unrecorded(w.workers, k)
  {
  }
}
