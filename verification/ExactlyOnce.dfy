/** Serialized drains on an honest ERP, crashes, lost responses and late landings included: the ERP ends up with the
    records of a run that executed each accepted command once. */
module ExactlyOnce {

  import opened Basics
  import opened Store
  import opened Protocol
  import opened Serialized
  import E = Erp
  import L = Lifecycle
  import R = Runner

  /* ---- an honest ERP ---- */

  /** A response is honest: what it accepts has been applied, and a creation is called a duplicate only when it is
      one. */
  predicate Honest(w: World, s: Step) {
    s.Respond? && s.id in w.workers && w.workers[s.id].call.Some? ==>
      E.Honest(w.records, w.workers[s.id].call.value.key.action, w.workers[s.id].call.value.supplier, s.answer)
  }

  ghost predicate HonestRun(start: World, steps: seq<Step>)
    decreases |steps|
  {
    |steps| > 0 ==>
      HonestRun(start, steps[..|steps| - 1]) && Honest(RunFrom(1, start, steps[..|steps| - 1]), steps[|steps| - 1])
  }

  /* ---- what the records hold ---- */

  function Upload(n: int): Key { Key(L.AttachEvidence, n) }

  /** The keyed record a finished creation or attachment leaves for good. */
  predicate Lasting(r: E.Records, k: Key, supplier: string) {
    match k.action
    case CreateSupplier => supplier in r.suppliers
    case AttachEvidence => (supplier, k.cycle) in r.files
    case RequestRenewal => true
    case ApplyHold => true
    case ClearHold => true
  }

  ghost predicate DoneLasts(supplier: string, c: Case, r: E.Records) {
    forall k :: k in c.outbox && c.outbox[k].status == Done ==> Lasting(r, k, supplier)
  }

  ghost predicate Commanded(commands: set<Key>, action: L.Action) {
    exists k :: k in commands && k.action == action
  }

  /** Nothing is in the ERP without its command. */
  ghost predicate NothingExtra(supplier: string, outbox: map<Key, Row>, r: E.Records) {
    (forall s :: s in r.suppliers ==> s == supplier && Commanded(outbox.Keys, L.CreateSupplier))
    && forall f :: f in r.files ==> f.0 == supplier && Upload(f.1) in outbox
  }

  /** A certificate is on file as often as it was uploaded by a drain that waited, which is once at most, and by
      requests that landed later. */
  ghost predicate FilesAddUp(supplier: string, r: E.Records, log: seq<Obs>) {
    forall n: int ::
      r.files[(supplier, n)] == Count(log, Effected(Upload(n))) + Count(log, LandedLate(Upload(n)))
      && Count(log, Effected(Upload(n))) <= 1
  }

  /** What a call in progress knows about the records. */
  ghost predicate CallFits(supplier: string, r: E.Records, log: seq<Obs>, x: Call) {
    match x.ok
    case None =>
      (x.found ==> (supplier, x.key.cycle) in r.files)
      && (x.key.action == L.AttachEvidence && !x.found ==> Count(log, Effected(x.key)) == 0)
    case Some(ok) => ok ==> Lasting(r, x.key, supplier)
  }

  ghost predicate CallsFit(supplier: string, w: World) {
    forall id :: id in w.workers && w.workers[id].call.Some? ==>
      CallFits(supplier, w.records, w.log, w.workers[id].call.value)
  }

  ghost predicate Faithful(supplier: string, w: World) {
    supplier != "" && Serial(supplier, w) && DoneLasts(supplier, w.c, w.records)
    && NothingExtra(supplier, w.c.outbox, w.records) && FilesAddUp(supplier, w.records, w.log) && CallsFit(supplier, w)
  }

  /** How one more observation moves the two counts of a command. */
  lemma CountsMove(log: seq<Obs>, o: Obs, k: Key)
    ensures Count(log + [o], Effected(k)) ==
              Count(log, Effected(k)) + if o.Answered? && o.key == k && o.applied then 1 else 0
    ensures Count(log + [o], LandedLate(k)) == Count(log, LandedLate(k)) + if o == Landed(k) then 1 else 0
  {
    hide Count;
    CountOneMore(log, o, Effected(k));
    CountOneMore(log, o, LandedLate(k));
  }

  /** The log may have grown by an observation that is no effect on the ERP. */
  ghost predicate Quietly(log: seq<Obs>, log': seq<Obs>) {
    log' == log || exists o :: log' == log + [o] && !(o.Answered? && o.applied) && !o.Landed?
  }

  lemma QuietCounts(log: seq<Obs>, log': seq<Obs>)
    requires Quietly(log, log')
    ensures forall k :: Count(log', Effected(k)) == Count(log, Effected(k))
                        && Count(log', LandedLate(k)) == Count(log, LandedLate(k))
  {
    hide Count;
    if log' != log {
      var o :| log' == log + [o] && !(o.Answered? && o.applied) && !o.Landed?;
      forall k ensures Count(log', Effected(k)) == Count(log, Effected(k))
                       && Count(log', LandedLate(k)) == Count(log, LandedLate(k))
      {
        CountsMove(log, o, k);
      }
    }
  }

  lemma CaseStepsStayFaithful(supplier: string, w: World, s: Step)
    requires Faithful(supplier, w) && Enabled(1, w, s) && (s.Deliver? || s.Mark? || s.GraphWrite? || s.Decide?)
    ensures Faithful(supplier, Next(1, w, s))
  {
    hide Serial, Lasting, Count, Next, Enabled;
    CaseStepsStaySerial(supplier, w, s);
    CaseStepsAreQuiet(w, s);
    QuietCounts(w.log, Next(1, w, s).log);
  }

  lemma CaseStepsAreQuiet(w: World, s: Step)
    requires Enabled(1, w, s) && (s.Deliver? || s.Mark? || s.GraphWrite? || s.Decide?)
    ensures var w' := Next(1, w, s);
            Quietly(w.log, w'.log) && w'.records == w.records && w'.workers == w.workers
            && w.c.outbox.Keys <= w'.c.outbox.Keys
            && forall k :: k in w'.c.outbox && w'.c.outbox[k].status == Done ==>
                k in w.c.outbox && w.c.outbox[k].status == Done
  {
    var w' := Next(1, w, s);
    if w'.log != w.log { assert w'.log == w.log + [w'.log[|w.log|]]; }
  }

  lemma DrainStepsStayFaithful(supplier: string, w: World, s: Step)
    requires Faithful(supplier, w) && Enabled(1, w, s) && (s.Begin? || s.Stop? || s.ReadLedger? || s.Refuse?)
    ensures Faithful(supplier, Next(1, w, s))
  {
    hide R.Cleared, R.Permitted, DoneLasts, NothingExtra, Lasting, Open, Count, Serial;
    StepStaysSerial(supplier, w, s);
    var w' := Next(1, w, s);
    if w'.log != w.log { assert w'.log == w.log + [w'.log[|w.log|]]; }
    QuietCounts(w.log, w'.log);
  }

  lemma StartStaysFaithful(supplier: string, w: World, id: nat, k: Key)
    requires Faithful(supplier, w) && Enabled(1, w, Start(id, k))
    ensures Faithful(supplier, Next(1, w, Start(id, k)))
  {
    hide R.Cleared, R.Permitted, DoneLasts, NothingExtra, Lasting, Open, Count;
    StepStaysSerial(supplier, w, Start(id, k));
    var w' := Next(1, w, Start(id, k));
    QuietCounts(w.log, w'.log);
    assert HoldsOpenRows(supplier, w.c.outbox, w.workers[id]);
    if k.action == L.AttachEvidence {
      assert k == Upload(k.cycle);
    }
  }

  lemma RespondStaysFaithful(supplier: string, w: World, id: nat, a: E.Answer)
    requires Faithful(supplier, w) && Enabled(1, w, Respond(id, a)) && Honest(w, Respond(id, a))
    ensures Faithful(supplier, AfterResponse(w, id, a))
  {
    hide Serial, Open, Count, Requested, Returns, E.Apply, Lasting, NothingExtra, FilesAddUp;
    RespondStaysSerial(supplier, w, id, a);
    var w' := AfterResponse(w, id, a);
    var x := w.workers[id].call.value;
    CallIsOpen(supplier, w, id);
    forall o | o in w.workers ensures o == id { OnlyOne(w.workers, o, id); }
    ResponseFits(supplier, w.c.outbox, w.records, w.log, x, a);
    RecordsGrow(w.records, w'.records, supplier);
  }

  lemma RecordsGrow(r: E.Records, r': E.Records, supplier: string)
    requires r.suppliers <= r'.suppliers && r.files <= r'.files
    ensures forall k :: Lasting(r, k, supplier) ==> Lasting(r', k, supplier)
  {
  }

  /** What applying a commanded request adds. */
  lemma ApplyFits(supplier: string, outbox: map<Key, Row>, r: E.Records, k: Key)
    requires NothingExtra(supplier, outbox, r) && k in outbox
    ensures var r' := E.Apply(r, k.action, supplier, k.cycle);
            NothingExtra(supplier, outbox, r') && r.suppliers <= r'.suppliers && r.files <= r'.files
            && (forall n: int :: r'.files[(supplier, n)] == r.files[(supplier, n)] + if k == Upload(n) then 1 else 0)
            && Lasting(r', k, supplier)
  {
    assert k == Key(k.action, k.cycle);
  }

  /** The ERP after an honest response. */
  lemma ResponseFits(supplier: string, outbox: map<Key, Row>, r: E.Records, log: seq<Obs>, x: Call, a: E.Answer)
    requires NothingExtra(supplier, outbox, r) && FilesAddUp(supplier, r, log) && x.key in outbox
             && x.supplier == supplier
    requires x.ok.None? && CallFits(supplier, r, log, x) && E.Honest(r, x.key.action, x.supplier, a)
    ensures var applied := Requested(r, x, a) && a.applied;
            var r' := if applied then E.Apply(r, x.key.action, x.supplier, x.key.cycle) else r;
            NothingExtra(supplier, outbox, r') && (Returns(r, x, a) ==> Lasting(r', x.key, supplier))
            && FilesAddUp(supplier, r', log + [Answered(x.key, applied, Returns(r, x, a))])
            && r.suppliers <= r'.suppliers && r.files <= r'.files
  {
    hide Count, NothingExtra, E.Apply;
    var applied := Requested(r, x, a) && a.applied;
    ApplyFits(supplier, outbox, r, x.key);
    assert x.key == Key(x.key.action, x.key.cycle);
    forall n: int
      ensures Count(log + [Answered(x.key, applied, Returns(r, x, a))], Effected(Upload(n)))
              == Count(log, Effected(Upload(n))) + if x.key == Upload(n) && applied then 1 else 0
      ensures Count(log + [Answered(x.key, applied, Returns(r, x, a))], LandedLate(Upload(n)))
              == Count(log, LandedLate(Upload(n)))
    {
      CountsMove(log, Answered(x.key, applied, Returns(r, x, a)), Upload(n));
    }
  }

  lemma LandStaysFaithful(supplier: string, w: World, x: Call)
    requires Faithful(supplier, w) && x in w.adrift
    ensures Faithful(supplier, AfterLanding(w, x))
  {
    hide Open, Count, E.Apply, Lasting, NothingExtra, FilesAddUp, HoldsOpenRows, RowsNameTheSupplier;
    EndsStaySerial(supplier, w, Land(x));
    var w' := AfterLanding(w, x);
    LandingFits(supplier, w.c.outbox, w.records, w.log, x);
    RecordsGrow(w.records, w'.records, supplier);
    forall k ensures Count(w'.log, Effected(k)) == Count(w.log, Effected(k)) { CountsMove(w.log, Landed(x.key), k); }
  }

  lemma LandingFits(supplier: string, outbox: map<Key, Row>, r: E.Records, log: seq<Obs>, x: Call)
    requires NothingExtra(supplier, outbox, r) && FilesAddUp(supplier, r, log) && x.key in outbox
             && x.supplier == supplier
    ensures var r' := E.Apply(r, x.key.action, x.supplier, x.key.cycle);
            NothingExtra(supplier, outbox, r') && FilesAddUp(supplier, r', log + [Landed(x.key)])
            && r.suppliers <= r'.suppliers && r.files <= r'.files
  {
    hide Count, NothingExtra, E.Apply, Lasting;
    ApplyFits(supplier, outbox, r, x.key);
    forall n: int
      ensures Count(log + [Landed(x.key)], Effected(Upload(n))) == Count(log, Effected(Upload(n)))
      ensures Count(log + [Landed(x.key)], LandedLate(Upload(n)))
              == Count(log, LandedLate(Upload(n))) + if x.key == Upload(n) then 1 else 0
    {
      CountsMove(log, Landed(x.key), Upload(n));
    }
  }

  lemma RecordStaysFaithful(supplier: string, w: World, id: nat)
    requires Faithful(supplier, w) && Enabled(1, w, Record(id))
    ensures Faithful(supplier, AfterRecord(w, id))
  {
    hide Serial, Open, Count;
    RecordStaysSerial(supplier, w, id);
    CallIsOpen(supplier, w, id);
    forall o | o in w.workers ensures o == id { OnlyOne(w.workers, o, id); }
    var w' := AfterRecord(w, id);
    assert w'.c.outbox.Keys == w.c.outbox.Keys;
    assert w'.log == w.log + [w'.log[|w.log|]];
    QuietCounts(w.log, w'.log);
    assert CallFits(supplier, w.records, w.log, w.workers[id].call.value);
  }

  lemma StepStaysFaithful(supplier: string, w: World, s: Step)
    requires Faithful(supplier, w) && Enabled(1, w, s) && Honest(w, s)
    ensures Faithful(supplier, Next(1, w, s))
  {
    hide Faithful;
    if s.Deliver? || s.Mark? || s.GraphWrite? || s.Decide? { CaseStepsStayFaithful(supplier, w, s); }
    else if s.Record? { RecordStaysFaithful(supplier, w, s.id); }
    else if s.Respond? { RespondStaysFaithful(supplier, w, s.id, s.answer); }
    else if s.Start? { StartStaysFaithful(supplier, w, s.id, s.key); }
    else if s.Land? { LandStaysFaithful(supplier, w, s.call); }
    else { DrainStepsStayFaithful(supplier, w, s); }
  }

  lemma {:induction false} FaithfulRuns(supplier: string, steps: seq<Step>)
    requires supplier != "" && HonestRun(Initial(supplier), steps)
    ensures Faithful(supplier, Run(1, supplier, steps))
    decreases |steps|
  {
    hide Faithful, Enabled, Next, Honest;
    if |steps| == 0 {
      InitialIsFaithful(supplier);
    } else {
      var w := Run(1, supplier, steps[..|steps| - 1]);
      FaithfulRuns(supplier, steps[..|steps| - 1]);
      if Enabled(1, w, steps[|steps| - 1]) { StepStaysFaithful(supplier, w, steps[|steps| - 1]); }
    }
  }

  lemma InitialIsFaithful(supplier: string)
    requires supplier != ""
    ensures Faithful(supplier, Initial(supplier))
  {
    InitialIsSerial(supplier);
  }

  /** At any moment of such a run: what is done is there, what is there was commanded, and a certificate is on file once
      at most but for requests that landed late. */
  lemma RecordsAreFaithful(supplier: string, steps: seq<Step>)
    requires supplier != "" && HonestRun(Initial(supplier), steps)
    ensures var w := Run(1, supplier, steps);
            DoneLasts(supplier, w.c, w.records) && NothingExtra(supplier, w.c.outbox, w.records)
            && FilesAddUp(supplier, w.records, w.log)
  {
    hide RunFrom;
    FaithfulRuns(supplier, steps);
  }

  /* ---- against a run that executes each command once ---- */

  /** Executing commands one after another, each exactly once and without failures, for the suppliers in their rows. */
  function ExecuteOnce(outbox: map<Key, Row>, commands: seq<Key>): E.Records
    requires forall k :: k in commands ==> k in outbox
  {
    if commands == [] then Initial("").records
    else
      var k := commands[|commands| - 1];
      E.Apply(ExecuteOnce(outbox, commands[..|commands| - 1]), k.action, outbox[k].supplier, k.cycle)
  }

  function Members(commands: seq<Key>): set<Key> {
    set k | k in commands
  }

  lemma {:induction false} OnceLeaves(supplier: string, outbox: map<Key, Row>, commands: seq<Key>)
    requires R.NoRepeats(commands) && forall k :: k in commands ==> k in outbox && outbox[k].supplier == supplier
    ensures var r := ExecuteOnce(outbox, commands);
            r.suppliers == (if Commanded(Members(commands), L.CreateSupplier) then {supplier} else {})
            && forall s, n :: r.files[(s, n)] == if s == supplier && Upload(n) in commands then 1 else 0
  {
    hide Commanded, E.Apply;
    if commands != [] {
      var last := |commands| - 1;
      var init, k := commands[..last], commands[last];
      OnceLeaves(supplier, outbox, init);
      assert k !in init;
      assert forall o :: o in commands <==> o in init || o == k;
      assert Members(commands) == Members(init) + {k};
      OneMoreCommanded(Members(init), k);
      OnceMore(ExecuteOnce(outbox, init), supplier, k);
    } else {
      assert Members(commands) == {};
      NothingCommanded();
    }
  }

  lemma NothingCommanded()
    ensures forall a :: !Commanded({}, a)
  {
  }

  lemma OneMoreCommanded(commands: set<Key>, k: Key)
    ensures Commanded(commands + {k}, L.CreateSupplier) <==>
              Commanded(commands, L.CreateSupplier) || k.action == L.CreateSupplier
  {
    if k.action == L.CreateSupplier { assert k in commands + {k}; }
    if o :| o in commands && o.action == L.CreateSupplier { assert o in commands + {k}; }
  }

  lemma OnceMore(r: E.Records, supplier: string, k: Key)
    ensures var r' := E.Apply(r, k.action, supplier, k.cycle);
            r'.suppliers == (if k.action == L.CreateSupplier then r.suppliers + {supplier} else r.suppliers)
            && forall s, n :: r'.files[(s, n)] == r.files[(s, n)] + if s == supplier && k == Upload(n) then 1 else 0
  {
    assert k == Key(k.action, k.cycle);
  }

  /** Every accepted command is done, and `accepted` lists them. */
  ghost predicate AllDone(outbox: map<Key, Row>, accepted: seq<Key>) {
    R.Lists(accepted, outbox) && forall k :: k in outbox ==> outbox[k].status == Done
  }

  /** The suppliers and the certificates on file are those of executing each accepted command once. */
  ghost predicate AsOnce(w: World, accepted: seq<Key>)
    requires AllDone(w.c.outbox, accepted)
  {
    var once := ExecuteOnce(w.c.outbox, accepted);
    w.records.suppliers == once.suppliers && forall f :: f in w.records.files <==> f in once.files
  }

  /** Exactly once, despite crashes, lost responses and late landings anywhere: when every accepted command is done,
      suppliers and certificates are those of executing each accepted command once, in whatever order. Only requests
      landing late can file a certificate again, each of them once more at most. */
  lemma ExactlyOnceRecords(supplier: string, steps: seq<Step>, accepted: seq<Key>)
    requires supplier != "" && HonestRun(Initial(supplier), steps)
    requires AllDone(Run(1, supplier, steps).c.outbox, accepted)
    ensures var w := Run(1, supplier, steps);
            var once := ExecuteOnce(w.c.outbox, accepted);
            AsOnce(w, accepted)
            && (forall s, n :: once.files[(s, n)] <= w.records.files[(s, n)]
                               <= once.files[(s, n)] + Count(w.log, LandedLate(Upload(n))))
            && ((forall n: int :: Count(w.log, LandedLate(Upload(n))) == 0) ==> w.records.files == once.files)
  {
    hide RunFrom, ExecuteOnce, Count, HoldsOpenRows, AdriftFits;
    var w := Run(1, supplier, steps);
    FaithfulRuns(supplier, steps);
    assert RowsNameTheSupplier(supplier, w.c.outbox);
    OnceLeaves(supplier, w.c.outbox, accepted);
    SameSuppliers(supplier, w, accepted, ExecuteOnce(w.c.outbox, accepted));
    SameFiles(supplier, w, accepted, ExecuteOnce(w.c.outbox, accepted));
  }

  lemma SameSuppliers(supplier: string, w: World, accepted: seq<Key>, once: E.Records)
    requires DoneLasts(supplier, w.c, w.records) && NothingExtra(supplier, w.c.outbox, w.records)
    requires AllDone(w.c.outbox, accepted)
    requires once.suppliers == if Commanded(Members(accepted), L.CreateSupplier) then {supplier} else {}
    ensures w.records.suppliers == once.suppliers
  {
    assert Members(accepted) == w.c.outbox.Keys;
    forall s ensures s in w.records.suppliers <==> s in once.suppliers {
      if s in once.suppliers {
        var k :| k in Members(accepted) && k.action == L.CreateSupplier;
        assert Lasting(w.records, k, supplier);
      }
    }
  }

  lemma SameFiles(supplier: string, w: World, accepted: seq<Key>, once: E.Records)
    requires DoneLasts(supplier, w.c, w.records) && NothingExtra(supplier, w.c.outbox, w.records)
    requires FilesAddUp(supplier, w.records, w.log) && AllDone(w.c.outbox, accepted)
    requires forall s, n :: once.files[(s, n)] == if s == supplier && Upload(n) in accepted then 1 else 0
    ensures forall f :: f in w.records.files <==> f in once.files
    ensures forall s, n :: once.files[(s, n)] <= w.records.files[(s, n)]
                           <= once.files[(s, n)] + Count(w.log, LandedLate(Upload(n)))
    ensures (forall n: int :: Count(w.log, LandedLate(Upload(n))) == 0) ==> w.records.files == once.files
  {
    hide Count;
    forall s, n
      ensures (s, n) in w.records.files <==> (s, n) in once.files
      ensures once.files[(s, n)] <= w.records.files[(s, n)] <= once.files[(s, n)] + Count(w.log, LandedLate(Upload(n)))
    {
      if s == supplier && Upload(n) in accepted {
        assert Lasting(w.records, Upload(n), supplier);
      }
      assert (s, n) in w.records.files ==> (s, n).0 == supplier && Upload((s, n).1) in w.c.outbox;
    }
    forall f ensures f in w.records.files <==> f in once.files { assert f == (f.0, f.1); }
    if forall n: int :: Count(w.log, LandedLate(Upload(n))) == 0 {
      forall f ensures w.records.files[f] == once.files[f] { assert f == (f.0, f.1); }
    }
  }
}
