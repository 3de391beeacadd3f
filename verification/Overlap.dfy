/** What the guarantees for serialized drains lose when two drains of one case overlap. */
module Overlap {

  import opened Basics
  import opened Store
  import opened Protocol
  import C = Commands
  import E = Erp
  import L = Lifecycle
  import R = Runner
  import X = Serialized
  import Z = SerialWitnesses

  const Upload := Key(L.AttachEvidence, 1)

  /** Both drains read the ledger and look the file up before either uploads it; the first then records success. */
  const Race: seq<Step> :=
    [Begin, Begin, ReadLedger(0), ReadLedger(1), Start(0, Upload), Start(1, Upload),
     Respond(0, Z.Heard), Respond(1, Z.Unheard), Record(0)]

  /** Two idle drains that have both read the open row. */
  lemma BothRead(n: nat, w: World, supplier: string)
    requires n >= 2
    requires w.workers == map[] && w.nextId == 0 && w.c.outbox == map[Upload := Row(Pending, 1, 0, supplier)]
    ensures var w' := Take(n, Take(n, Take(n, Take(n, w, Begin), Begin), ReadLedger(0)), ReadLedger(1));
            w'.c == w.c && w'.records == w.records
            && w'.workers == map[0 := Worker(w.c, Some(w.c.outbox), {Upload}, None),
                                 1 := Worker(w.c, Some(w.c.outbox), {Upload}, None)]
  {
    hide Take;
    BothBegin(n, w);
    var w2 := Take(n, Take(n, w, Begin), Begin);
    OpenUpload(w.c.outbox, supplier);
    OneReads(n, w2, 0);
    OneReads(n, Take(n, w2, ReadLedger(0)), 1);
  }

  lemma BothBegin(n: nat, w: World)
    requires n >= 2 && w.workers == map[] && w.nextId == 0
    ensures var w' := Take(n, Take(n, w, Begin), Begin);
            w'.c == w.c && w'.records == w.records
            && w'.workers == map[0 := Worker(w.c, None, {}, None), 1 := Worker(w.c, None, {}, None)]
  {
    var w1 := Take(n, w, Begin);
    assert w1.workers == map[0 := Worker(w.c, None, {}, None)] && |w1.workers| == 1;
  }

  lemma OpenUpload(outbox: map<Key, Row>, supplier: string)
    requires outbox == map[Upload := Row(Pending, 1, 0, supplier)]
    ensures Open(outbox) == {Upload}
  {
  }

  lemma OneReads(n: nat, w: World, id: nat)
    requires id in w.workers && w.workers[id].ledger.None?
    ensures var w' := Take(n, w, ReadLedger(id));
            w'.c == w.c && w'.records == w.records
            && w'.workers == w.workers[id := w.workers[id].(ledger := Some(w.c.outbox), left := Open(w.c.outbox))]
  {
    hide Open;
  }

  /** Both drains in the middle of their calls, as far as each has got. */
  ghost predicate Calling(w: World, c: Case, supplier: string, first: Option<bool>, second: Option<bool>) {
    w.c == c
    && w.workers == map[0 := Worker(c, Some(c.outbox), {Upload}, Some(Call(Upload, supplier, false, first))),
                        1 := Worker(c, Some(c.outbox), {Upload}, Some(Call(Upload, supplier, false, second)))]
  }

  lemma BothStart(n: nat, w: World, supplier: string)
    requires n >= 2
    requires w.c.outbox == map[Upload := Row(Pending, 1, 0, supplier)] && R.Cleared(w.c)
             && w.records == Initial(supplier).records
    requires w.workers == map[0 := Worker(w.c, Some(w.c.outbox), {Upload}, None),
                                 1 := Worker(w.c, Some(w.c.outbox), {Upload}, None)]
    ensures var w' := Take(n, Take(n, w, Start(0, Upload)), Start(1, Upload));
            Calling(w', w.c, supplier, None, None) && w'.records == w.records
  {
    hide R.Cleared;
    var w1 := Take(n, w, Start(0, Upload));
    assert Enabled(n, w1, Start(1, Upload));
  }

  lemma BothUpload(n: nat, w: World, c: Case, supplier: string)
    requires n >= 2
    requires Calling(w, c, supplier, None, None) && w.records == Initial(supplier).records
    ensures var w' := Take(n, Take(n, w, Respond(0, Z.Heard)), Respond(1, Z.Unheard));
            Calling(w', c, supplier, Some(true), Some(false))
              && w'.records.files == multiset{(supplier, 1), (supplier, 1)}
  {
    assert Enabled(n, w, Respond(0, Z.Heard));
    var w1 := Take(n, w, Respond(0, Z.Heard));
    assert Enabled(n, w1, Respond(1, Z.Unheard));
  }

  /** Whenever two drains may overlap, they can turn a done row back into a failed one, and file one certificate twice,
      with an ERP that answers honestly and a single response lost. */
  lemma OverlapUndoesDone(n: nat, supplier: string)
    requires n >= 2
    ensures forall r: E.Records ::
              E.Honest(r, Upload.action, supplier, Z.Heard) && E.Honest(r, Upload.action, supplier, Z.Unheard)
    ensures var w := Run(n, supplier, Z.Opening(Upload, supplier) + Race);
            w.c.outbox == map[Upload := Row(Done, 1, 0, supplier)] && w.records.files[(supplier, 1)] == 2
            && Run(n, supplier, Z.Opening(Upload, supplier) + Race + [Record(1)]).c.outbox
               == map[Upload := Row(Failed, 1, 1, supplier)]
  {
    hide RunFrom, Take;
    var w0 := RunFrom(n, Initial(supplier), Z.Opening(Upload, supplier));
    Z.Opened(n, supplier, Upload, supplier);
    Unrolled(n, w0);
    BothRead(n, w0, supplier);
    var w1 := Take(n, Take(n, Take(n, Take(n, w0, Begin), Begin), ReadLedger(0)), ReadLedger(1));
    BothStart(n, w1, supplier);
    var w2 := Take(n, Take(n, w1, Start(0, Upload)), Start(1, Upload));
    BothUpload(n, w2, w0.c, supplier);
    var w3 := Take(n, Take(n, w2, Respond(0, Z.Heard)), Respond(1, Z.Unheard));
    BothRecord(n, w3, w0.c, supplier);
    RunsCompose(n, Initial(supplier), Z.Opening(Upload, supplier), Race);
    Extend(n, Initial(supplier), Z.Opening(Upload, supplier) + Race, Record(1));
  }

  lemma BothRecord(n: nat, w: World, c: Case, supplier: string)
    requires n >= 2
    requires c.outbox == map[Upload := Row(Pending, 1, 0, supplier)] && Calling(w, c, supplier, Some(true), Some(false))
    ensures var w1 := Take(n, w, Record(0));
            w1.c.outbox == map[Upload := Row(Done, 1, 0, supplier)] && w1.records == w.records
            && Take(n, w1, Record(1)).c.outbox == map[Upload := Row(Failed, 1, 1, supplier)]
  {
    hide Requested, Returns, R.Cleared;
    RecordTakes(n, w, 0);
    var w1 := Take(n, w, Record(0));
    assert w1.workers[1] == w.workers[1] && Upload in w1.c.outbox;
    RecordTakes(n, w1, 1);
  }

  lemma RecordTakes(n: nat, w: World, id: nat)
    requires Enabled(n, w, Record(id))
    ensures Take(n, w, Record(id)) == AfterRecord(w, id)
  {
  }

  lemma Unrolled(n: nat, w: World)
    requires n >= 2
    ensures var read := Take(n, Take(n, Take(n, Take(n, w, Begin), Begin), ReadLedger(0)), ReadLedger(1));
            var called := Take(n, Take(n, read, Start(0, Upload)), Start(1, Upload));
            RunFrom(n, w, Race)
            == Take(n, Take(n, Take(n, called, Respond(0, Z.Heard)), Respond(1, Z.Unheard)), Record(0))
  {
    hide RunFrom, Take;
    var a, b, c := [Begin, Begin, ReadLedger(0)], [ReadLedger(1), Start(0, Upload), Start(1, Upload)],
                   [Respond(0, Z.Heard), Respond(1, Z.Unheard), Record(0)];
    assert Race == a + b + c;
    RunsCompose(n, w, a + b, c);
    RunsCompose(n, w, a, b);
    StepByStep(n, w, Begin, Begin, ReadLedger(0));
    var w1 := RunFrom(n, w, a);
    StepByStep(n, w1, ReadLedger(1), Start(0, Upload), Start(1, Upload));
    StepByStep(n, RunFrom(n, w1, b), Respond(0, Z.Heard), Respond(1, Z.Unheard), Record(0));
  }

  /** With at most `n` drains in flight, settled rows stay as they are in every run. */
  ghost predicate Absorbing(n: nat) {
    forall supplier: string, steps: seq<Step>, more: seq<Step>, k: Key ::
      var before, after := Run(n, supplier, steps).c.outbox, Run(n, supplier, steps + more).c.outbox;
      k in before && C.Settled(before[k].status) ==> k in after && after[k] == before[k]
  }

  /** Settled rows are final exactly when drains are serialized. */
  lemma FinalExactlyWhenSerialized(n: nat)
    ensures Absorbing(n) <==> n <= 1
  {
    hide Run, Z.Opening, Race;
    if n <= 1 {
      forall supplier: string, steps: seq<Step>, more: seq<Step>, k: Key
        | k in Run(n, supplier, steps).c.outbox && C.Settled(Run(n, supplier, steps).c.outbox[k].status)
        ensures k in Run(n, supplier, steps + more).c.outbox
                && Run(n, supplier, steps + more).c.outbox[k] == Run(n, supplier, steps).c.outbox[k]
      {
        X.SettledIsAbsorbing(n, supplier, steps, more, k);
      }
    } else {
      OverlapUndoesDone(n, "Acme");
      var steps, more := Z.Opening(Upload, "Acme") + Race, [Record(1)];
      assert Run(n, "Acme", steps).c.outbox[Upload] != Run(n, "Acme", steps + more).c.outbox[Upload];
    }
  }
}
