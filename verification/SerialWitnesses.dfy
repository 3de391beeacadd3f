/** What one drain at a time on an honest ERP still does not give: a case that names no supplier may create two for one
    command, and a request that lands late may file a certificate twice. */
module SerialWitnesses {

  import opened Basics
  import opened Store
  import opened Protocol
  import opened ExactlyOnce
  import C = Commands
  import D = DrainRefinement
  import E = Erp
  import K = Risk
  import L = Lifecycle
  import R = Runner
  import T = Terminals

  /* ---- schedules with plain answers ---- */

  /** Applied, and neither called a duplicate nor refused after all. */
  predicate Plain(a: E.Answer) { a.applied && a.code != 409 && a.code != 417 }

  ghost predicate PlainSteps(steps: seq<Step>) {
    forall s :: s in steps && s.Respond? ==> Plain(s.answer)
  }

  lemma {:induction false} PlainRunsAreHonest(start: World, steps: seq<Step>)
    requires PlainSteps(steps)
    ensures HonestRun(start, steps)
    decreases |steps|
  {
    hide RunFrom;
    if |steps| > 0 {
      assert steps[|steps| - 1] in steps;
      PlainRunsAreHonest(start, steps[..|steps| - 1]);
    }
  }

  lemma {:induction false} KeysArePlain(id: nat, cleared: bool, todo: seq<Key>, answers: Key -> E.Answer)
    requires forall k :: Plain(answers(k))
    ensures PlainSteps(D.KeysSchedule(id, cleared, todo, answers))
  {
    if todo != [] {
      KeysArePlain(id, cleared, todo[..|todo| - 1], answers);
    }
  }

  lemma DrainsArePlain(id: nat, c: Case, stream: seq<Key>, answers: Key -> E.Answer)
    requires forall k :: Plain(answers(k))
    ensures PlainSteps(D.DrainSchedule(id, c, stream, answers, None))
  {
    hide R.Todo, R.Cleared, D.KeysSchedule;
    KeysArePlain(id, R.Cleared(c), R.Todo(c.outbox, stream), answers);
  }

  /* ---- drains of a single row ---- */

  lemma SingleTodo(outbox: map<Key, Row>, k: Key)
    requires outbox.Keys == {k} && !C.Settled(outbox[k].status)
    ensures R.Todo(outbox, [k]) == [k] && R.Lists([k], outbox)
  {
    hide R.Todo;
    R.DrainsExactlyTheOpenRows(outbox, [k]);
    var todo := R.Todo(outbox, [k]);
    assert k in todo;
    OnlyMember(todo, k);
  }

  lemma OnlyMember(keys: seq<Key>, k: Key)
    requires R.NoRepeats(keys) && forall o :: o in keys <==> o == k
    ensures keys == [k]
  {
    assert k in keys;
    assert keys[0] in keys && keys[|keys| - 1] in keys;
  }

  /** One undisturbed drain of a cleared case with one open row. */
  lemma SingleDrain(w: World, k: Key, a: E.Answer) returns (steps: seq<Step>)
    requires w.workers == map[] && w.c.outbox.Keys == {k} && !C.Settled(w.c.outbox[k].status) && R.Cleared(w.c)
             && Plain(a)
    ensures PlainSteps(steps) && forall s :: s in steps ==> !s.Land?
    ensures var row := w.c.outbox[k];
            var w' := RunFrom(1, w, steps);
            w'.workers == map[] && w'.records == E.After(w.records, k.action, row.supplier, k.cycle, a)
            && w'.c == w.c.(outbox := if E.Ok(w.records, k.action, row.supplier, k.cycle, a)
                                      then C.Succeeded(w.c.outbox, k) else C.FailedOnce(w.c.outbox, k))
  {
    hide RunFrom, R.Cleared, R.Todo, R.DeadReports, D.KeysSchedule, E.After, E.Ok;
    var answers: Key -> E.Answer := (o: Key) => a;
    SingleTodo(w.c.outbox, k);
    steps := D.DrainSchedule(w.nextId, w.c, [k], answers, None);
    D.DrainIsASchedule(1, w, [k], answers, None);
    DrainsArePlain(w.nextId, w.c, [k], answers);
    NoLandings(w.nextId, R.Cleared(w.c), [k], answers);
    var start := R.Drain(w.c.outbox, w.records, []);
    assert [k][..0] == [];
    assert R.DrainAll(start, true, w.c.outbox, [k], answers)
           == R.DrainStep(R.DrainAll(start, true, w.c.outbox, [], answers), true, w.c.outbox, k, a);
  }

  lemma {:induction false} NoLandings(id: nat, cleared: bool, todo: seq<Key>, answers: Key -> E.Answer)
    ensures forall s :: s in D.KeysSchedule(id, cleared, todo, answers) ==> !s.Land?
  {
    if todo != [] {
      NoLandings(id, cleared, todo[..|todo| - 1], answers);
    }
  }

  /* ---- a cleared case with one command ---- */

  const Verdict := K.Verdict("policy", 1, 0.0, Clear, [], [])

  /** Applied and accepted. */
  const Heard := E.Answer(true, true, true, 200, true)

  /** Applied, but the response is lost. */
  const Unheard := E.Answer(true, true, false, 503, true)

  function Opening(k: Key, s: string): seq<Step> {
    [GraphWrite(T.OutcomeWrite(Committed, Some(Verdict))), GraphWrite(T.ClaimWrite(k, s))]
  }

  lemma Opened(n: nat, supplier: string, k: Key, s: string)
    requires supplier != "" ==> s == supplier
    ensures PlainSteps(Opening(k, s))
    ensures var w := Run(n, supplier, Opening(k, s));
            w.workers == map[] && w.nextId == 0 && w.c.outbox == map[k := Row(Pending, 1, 0, s)] && R.Cleared(w.c)
            && w.c.supplier == supplier && w.records == Initial(supplier).records && w.log == []
              && w.adrift == multiset{}
  {
    var w := Initial(supplier);
    var a, b := GraphWrite(T.OutcomeWrite(Committed, Some(Verdict))), GraphWrite(T.ClaimWrite(k, s));
    StepByStep(n, w, a, b, b);
    assert Enabled(n, w, a);
    assert Enabled(n, Take(n, w, a), b);
  }

  /* ---- no name ---- */

  const Create := Key(L.CreateSupplier, 1)

  /** For a case that names no supplier: the creation of one loses its response, an event that names another claims the
      command again, and the command is done - with both of them created. */
  lemma NamelessCaseCreatesTwice(one: string, other: string) returns (steps: seq<Step>)
    requires one != other
    ensures HonestRun(Initial(""), steps)
    ensures var w := Run(1, "", steps);
            w.c.outbox.Keys == {Create} && w.c.outbox[Create].status == Done && w.c.outbox[Create].supplier == other
            && w.records.suppliers == {one, other}
  {
    hide RunFrom, R.Cleared;
    var first := Opening(Create, one);
    Opened(1, "", Create, one);
    var w1 := Run(1, "", first);
    var lost := SingleDrain(w1, Create, Unheard);
    var w2 := RunFrom(1, w1, lost);
    var again := GraphWrite(T.ClaimWrite(Create, other));
    StepByStep(1, w2, again, again, again);
    var w3 := RunFrom(1, w2, [again]);
    Reclaimed(w2, other);
    assert R.Cleared(w3.c) by { ClearedByVerdict(w1.c, w3.c); }
    var heard := SingleDrain(w3, Create, Heard);
    RunsCompose(1, Initial(""), first, lost);
    RunsCompose(1, Initial(""), first + lost, [again]);
    RunsCompose(1, Initial(""), first + lost + [again], heard);
    steps := first + lost + [again] + heard;
    PlainRunsAreHonest(Initial(""), steps);
  }

  lemma Reclaimed(w: World, other: string)
    requires w.c.supplier == "" && w.c.outbox.Keys == {Create} && w.c.outbox[Create].status == Failed
    ensures var again := GraphWrite(T.ClaimWrite(Create, other));
            var w' := Take(1, w, again);
            w'.c == w.c.(outbox := w'.c.outbox) && w'.c.outbox.Keys == {Create} && w'.workers == w.workers
            && w'.records == w.records && w'.c.outbox[Create].status == Pending && w'.c.outbox[Create].supplier == other
  {
  }

  lemma ClearedByVerdict(c: Case, c': Case)
    requires R.Cleared(c) && c'.approval == c.approval && c'.policy == c.policy && c'.version == c.version
    ensures R.Cleared(c')
  {
  }

  /** In every honest run that has all its commands done, suppliers and certificates are as once. */
  ghost predicate ExactOnce(supplier: string) {
    forall steps: seq<Step>, accepted: seq<Key> ::
      HonestRun(Initial(supplier), steps) && AllDone(Run(1, supplier, steps).c.outbox, accepted) ==>
        AsOnce(Run(1, supplier, steps), accepted)
  }

  /** With drains one at a time, records are exactly-once for a case exactly when its document names its supplier. */
  lemma ExactlyOnceExactlyWhenNamed(supplier: string)
    ensures ExactOnce(supplier) <==> supplier != ""
  {
    hide Run, HonestRun, AsOnce, ExecuteOnce;
    if supplier != "" {
      forall steps: seq<Step>, accepted: seq<Key>
        | HonestRun(Initial(supplier), steps) && AllDone(Run(1, supplier, steps).c.outbox, accepted)
        ensures AsOnce(Run(1, supplier, steps), accepted)
      {
        ExactlyOnceRecords(supplier, steps, accepted);
      }
    } else {
      var steps := NamelessCaseCreatesTwice("A", "B");
      TwoAreNotOnce(Run(1, "", steps), "A", "B");
    }
  }

  lemma TwoAreNotOnce(w: World, one: string, other: string)
    requires one != other && w.c.outbox.Keys == {Create} && w.c.outbox[Create].status == Done
    requires w.c.outbox[Create].supplier == other && w.records.suppliers == {one, other}
    ensures AllDone(w.c.outbox, [Create]) && !AsOnce(w, [Create])
  {
    assert [Create][..0] == [];
    assert ExecuteOnce(w.c.outbox, []) == Initial("").records;
    assert one in w.records.suppliers && one !in ExecuteOnce(w.c.outbox, [Create]).suppliers;
  }

  /* ---- late ---- */

  lemma {:induction false} AdriftStays(n: nat, w: World, steps: seq<Step>)
    requires forall s :: s in steps ==> !s.Land?
    ensures w.adrift <= RunFrom(n, w, steps).adrift
    decreases |steps|
  {
    hide Enabled;
    if |steps| > 0 {
      var last := |steps| - 1;
      AdriftStays(n, w, steps[..last]);
      assert steps[last] in steps;
      var before := RunFrom(n, w, steps[..last]);
      if Enabled(n, before, steps[last]) { OneStepKeepsAdrift(n, before, steps[last]); }
    }
  }

  lemma OneStepKeepsAdrift(n: nat, w: World, s: Step)
    requires Enabled(n, w, s) && !s.Land?
    ensures w.adrift <= Next(n, w, s).adrift
  {
  }

  /** A drain dies with its upload on the way; the next one finds no file and uploads it; then the first one lands. */
  lemma LateLandingFilesTwice(supplier: string) returns (steps: seq<Step>)
    requires supplier != ""
    ensures HonestRun(Initial(supplier), steps)
    ensures var w := Run(1, supplier, steps);
            w.c.outbox.Keys == {Upload(1)} && w.c.outbox[Upload(1)].status == Done
              && w.records.files[(supplier, 1)] == 2
  {
    hide RunFrom, R.Cleared, C.Succeeded, Take;
    var first, dropped := Opening(Upload(1), supplier), [Begin, ReadLedger(0), Start(0, Upload(1))] + [Stop(0)];
    Opened(1, supplier, Upload(1), supplier);
    var w1 := Run(1, supplier, first);
    DroppedUpload(w1, supplier);
    var w2 := RunFrom(1, w1, dropped);
    var rest := UploadedAndLanded(w2, supplier);
    RunsCompose(1, Initial(supplier), first, dropped);
    RunsCompose(1, Initial(supplier), first + dropped, rest);
    steps := first + dropped + rest;
    PlainRunsAreHonest(Initial(supplier), steps);
  }

  lemma DroppedUpload(w: World, supplier: string)
    requires w.workers == map[] && w.nextId == 0 && w.c.outbox == map[Upload(1) := Row(Pending, 1, 0, supplier)]
    requires R.Cleared(w.c) && w.records == Initial(supplier).records
    ensures var w' := RunFrom(1, w, [Begin, ReadLedger(0), Start(0, Upload(1))] + [Stop(0)]);
            w'.c == w.c && w'.records == w.records && w'.workers == map[]
              && Call(Upload(1), supplier, false, None) in w'.adrift
  {
    hide RunFrom, R.Cleared, Take;
    var cut := [Begin, ReadLedger(0), Start(0, Upload(1))];
    StepByStep(1, w, Begin, ReadLedger(0), Start(0, Upload(1)));
    UploadStarted(w, supplier);
    var w1 := RunFrom(1, w, cut);
    StepByStep(1, w1, Stop(0), Stop(0), Stop(0));
    UploadDropped(w1, Call(Upload(1), supplier, false, None));
    RunsCompose(1, w, cut, [Stop(0)]);
  }

  lemma UploadedAndLanded(w: World, supplier: string) returns (steps: seq<Step>)
    requires w.workers == map[] && w.c.outbox == map[Upload(1) := Row(Pending, 1, 0, supplier)] && R.Cleared(w.c)
    requires w.records == Initial(supplier).records && Call(Upload(1), supplier, false, None) in w.adrift
    ensures PlainSteps(steps)
    ensures var w' := RunFrom(1, w, steps);
            w'.c.outbox.Keys == {Upload(1)} && w'.c.outbox[Upload(1)].status == Done
              && w'.records.files[(supplier, 1)] == 2
  {
    hide RunFrom, R.Cleared, Take;
    var x := Call(Upload(1), supplier, false, None);
    var heard := SingleDrain(w, Upload(1), Heard);
    var w1 := RunFrom(1, w, heard);
    AdriftStays(1, w, heard);
    assert w1.records.files[(supplier, 1)] == 1;
    StepByStep(1, w1, Land(x), Land(x), Land(x));
    Landing(w1, x, supplier);
    RunsCompose(1, w, heard, [Land(x)]);
    steps := heard + [Land(x)];
  }

  lemma UploadStarted(w: World, supplier: string)
    requires w.workers == map[] && w.nextId == 0 && w.c.outbox == map[Upload(1) := Row(Pending, 1, 0, supplier)]
    requires R.Cleared(w.c) && w.records == Initial(supplier).records
    ensures var w' := Take(1, Take(1, Take(1, w, Begin), ReadLedger(0)), Start(0, Upload(1)));
            w'.c == w.c && w'.records == w.records && w'.workers.Keys == {0}
            && w'.workers[0].call == Some(Call(Upload(1), supplier, false, None))
  {
    hide R.Cleared;
    var w1 := Take(1, w, Begin);
    assert Enabled(1, w1, ReadLedger(0));
    var w2 := Take(1, w1, ReadLedger(0));
    assert Upload(1) in Open(w.c.outbox);
    assert Enabled(1, w2, Start(0, Upload(1)));
  }

  lemma UploadDropped(w: World, x: Call)
    requires w.workers.Keys == {0} && w.workers[0].call == Some(x) && x.ok.None? && !x.found
    ensures var w' := Take(1, w, Stop(0));
            w'.c == w.c && w'.records == w.records && w'.workers == map[] && x in w'.adrift
  {
    assert (w.workers - {0}).Keys == {};
  }

  lemma Landing(w: World, x: Call, supplier: string)
    requires x in w.adrift && x.key == Upload(1) && x.supplier == supplier
    ensures var w' := Take(1, w, Land(x));
            w'.c == w.c && w'.records.files[(supplier, 1)] == w.records.files[(supplier, 1)] + 1
  {
  }
}
