/** The drain as one operation is a schedule of the step machine: read the case, read the ledger, then refuse or
    call and record, one command after another. */
module DrainRefinement {

  import opened Basics
  import opened Store
  import opened Protocol
  import C = Commands
  import E = Erp
  import R = Runner

  function KeySchedule(id: nat, cleared: bool, k: Key, a: E.Answer): seq<Step> {
    if R.Permitted(cleared, k.action) then [Start(id, k), Respond(id, a), Record(id)] else [Refuse(id, k)]
  }

  function KeysSchedule(id: nat, cleared: bool, todo: seq<Key>, answers: Key -> E.Answer): seq<Step> {
    if todo == [] then []
    else KeysSchedule(id, cleared, todo[..|todo| - 1], answers)
         + KeySchedule(id, cleared, todo[|todo| - 1], answers(todo[|todo| - 1]))
  }

  /** The call a dying drain makes and does not record. */
  function LastCallSchedule(id: nat, cleared: bool, todo: seq<Key>, death: Option<R.Death>,
                            answers: Key -> E.Answer): seq<Step> {
    if death.Some? && death.value.called && death.value.handled < |todo|
      && R.Permitted(cleared, todo[death.value.handled].action)
    then [Start(id, todo[death.value.handled]), Respond(id, answers(todo[death.value.handled]))]
    else []
  }

  /** What drain `id` does when nothing else happens between its steps, until it ends or dies. */
  function DrainSchedule(id: nat, c: Case, stream: seq<Key>, answers: Key -> E.Answer,
                         death: Option<R.Death>): seq<Step> {
    var todo := R.Todo(c.outbox, stream);
    [Begin, ReadLedger(id)] + KeysSchedule(id, R.Cleared(c), R.Until(todo, death), answers)
    + LastCallSchedule(id, R.Cleared(c), todo, death, answers) + [Stop(id)]
  }

  /** The machine in the middle of an undisturbed drain that has come as far as `d`. */
  ghost predicate Midway(w: World, c: Case, id: nat, d: R.Drain, left: set<Key>) {
    w.c == c.(outbox := d.outbox) && w.records == d.records && d.outbox.Keys == c.outbox.Keys
    && w.workers == map[id := Worker(c, Some(c.outbox), left, None)]
  }

  /** Looking up, asking and hearing back with nothing in between is one atomic call. */
  lemma UndisturbedCallIsAtomic(r: E.Records, k: Key, supplier: string, a: E.Answer)
    ensures var x := Call(k, supplier, (supplier, k.cycle) in r.files, None);
            (Requested(r, x, a) <==> E.Requests(r, k.action, supplier, k.cycle, a))
            && (Returns(r, x, a) <==> E.Ok(r, k.action, supplier, k.cycle, a))
  {
  }

  lemma OneKey(n: nat, w: World, c: Case, id: nat, d: R.Drain, left: set<Key>, k: Key, a: E.Answer)
    requires Midway(w, c, id, d, left) && k in left && k in c.outbox
    ensures var d' := R.DrainStep(d, R.Cleared(c), c.outbox, k, a);
            Midway(RunFrom(n, w, KeySchedule(id, R.Cleared(c), k, a)), c, id, d', left - {k})
  {
    hide RunFrom, Midway, Take, R.DrainStep;
    if R.Permitted(R.Cleared(c), k.action) {
      StepByStep(n, w, Start(id, k), Respond(id, a), Record(id));
      PermittedKey(n, w, c, id, d, left, k, a);
    } else {
      StepByStep(n, w, Refuse(id, k), Refuse(id, k), Refuse(id, k));
      RefusedKey(n, w, c, id, d, left, k, a);
    }
  }

  lemma RefusedKey(n: nat, w: World, c: Case, id: nat, d: R.Drain, left: set<Key>, k: Key, a: E.Answer)
    requires Midway(w, c, id, d, left) && k in left && k in c.outbox && !R.Permitted(R.Cleared(c), k.action)
    ensures Midway(Take(n, w, Refuse(id, k)), c, id, R.DrainStep(d, R.Cleared(c), c.outbox, k, a), left - {k})
  {
    hide R.Cleared, R.Permitted, E.After, E.Ok, C.FailedOnce, C.Succeeded;
  }

  /** The worker in the middle of its call for `k`. */
  function Calling(c: Case, left: set<Key>, k: Key, files: multiset<(string, int)>, ok: Option<bool>): Worker
    requires k in c.outbox
  {
    var s := c.outbox[k].supplier;
    Worker(c, Some(c.outbox), left, Some(Call(k, s, (s, k.cycle) in files, ok)))
  }

  lemma StartKey(n: nat, w: World, c: Case, id: nat, d: R.Drain, left: set<Key>, k: Key)
    requires Midway(w, c, id, d, left) && k in left && k in c.outbox && R.Permitted(R.Cleared(c), k.action)
    ensures var w' := Take(n, w, Start(id, k));
            w'.c == w.c && w'.records == w.records
              && w'.workers == map[id := Calling(c, left, k, w.records.files, None)]
  {
    hide R.Cleared, R.Permitted;
    assert Enabled(n, w, Start(id, k));
  }

  lemma RespondKey(n: nat, w: World, c: Case, id: nat, left: set<Key>, k: Key, a: E.Answer)
    requires k in c.outbox && w.workers == map[id := Calling(c, left, k, w.records.files, None)]
    ensures var s := c.outbox[k].supplier;
            var w' := Take(n, w, Respond(id, a));
            w'.c == w.c && w'.records == E.After(w.records, k.action, s, k.cycle, a)
            && w'.workers == map[id := Calling(c, left, k, w.records.files,
              Some(E.Ok(w.records, k.action, s, k.cycle, a)))]
  {
    hide E.Ok, E.Apply, E.Requests, Requested, Returns;
    UndisturbedCallIsAtomic(w.records, k, c.outbox[k].supplier, a);
    assert Enabled(n, w, Respond(id, a));
  }

  lemma PermittedKey(n: nat, w: World, c: Case, id: nat, d: R.Drain, left: set<Key>, k: Key, a: E.Answer)
    requires Midway(w, c, id, d, left) && k in left && k in c.outbox && R.Permitted(R.Cleared(c), k.action)
    ensures var d' := R.DrainStep(d, R.Cleared(c), c.outbox, k, a);
            Midway(Take(n, Take(n, Take(n, w, Start(id, k)), Respond(id, a)), Record(id)), c, id, d', left - {k})
  {
    hide R.Cleared, R.Permitted, E.Ok, E.After, C.FailureStatus, C.FailedOnce, C.Succeeded, Take, R.DrainStep;
    StartKey(n, w, c, id, d, left, k);
    var w1 := Take(n, w, Start(id, k));
    RespondKey(n, w1, c, id, left, k, a);
    RecordKey(n, Take(n, w1, Respond(id, a)), c, id, d, left, k, a);
  }

  lemma RecordKey(n: nat, w: World, c: Case, id: nat, d: R.Drain, left: set<Key>, k: Key, a: E.Answer)
    requires k in c.outbox && R.Permitted(R.Cleared(c), k.action) && d.outbox.Keys == c.outbox.Keys
    requires var s := c.outbox[k].supplier;
             var ok := E.Ok(d.records, k.action, s, k.cycle, a);
             w.c == c.(outbox := d.outbox) && w.records == E.After(d.records, k.action, s, k.cycle, a)
             && w.workers == map[id := Calling(c, left, k, d.records.files, Some(ok))]
    ensures var d' := R.DrainStep(d, R.Cleared(c), c.outbox, k, a);
            Midway(Take(n, w, Record(id)), c, id, d', left - {k})
  {
    hide R.Cleared, R.Permitted, E.Ok, E.After, C.FailureStatus;
    assert Enabled(n, w, Record(id));
    assert Take(n, w, Record(id)) == AfterRecord(w, id);
  }

  lemma {:induction false} AllKeys(n: nat, w: World, c: Case, id: nat, d: R.Drain, left: set<Key>, todo: seq<Key>,
                                   answers: Key -> E.Answer)
    requires Midway(w, c, id, d, left) && R.NoRepeats(todo)
    requires forall k :: k in todo ==> k in left && k in c.outbox
    ensures var d' := R.DrainAll(d, R.Cleared(c), c.outbox, todo, answers);
            Midway(RunFrom(n, w, KeysSchedule(id, R.Cleared(c), todo, answers)), c, id, d', left - (set k | k in todo))
    decreases |todo|
  {
    hide R.Cleared, R.DrainStep, Midway, KeySchedule, RunFrom;
    if todo == [] {
      assert left - (set k | k in todo) == left;
      assert RunFrom(n, w, []) == w by { Nothing(n, w); }
    } else {
      var last := |todo| - 1;
      var init, k := todo[..last], todo[last];
      AllKeys(n, w, c, id, d, left, init, answers);
      assert k !in init;
      var done := KeysSchedule(id, R.Cleared(c), init, answers);
      var d1 := R.DrainAll(d, R.Cleared(c), c.outbox, init, answers);
      OneKey(n, RunFrom(n, w, done), c, id, d1, left - (set j | j in init), k, answers(k));
      RunsCompose(n, w, done, KeySchedule(id, R.Cleared(c), k, answers(k)));
      assert left - (set j | j in init) - {k} == left - (set j | j in todo);
    }
  }

  lemma LastCallIsSteps(n: nat, w: World, c: Case, id: nat, d: R.Drain, left: set<Key>, todo: seq<Key>,
                        death: Option<R.Death>, answers: Key -> E.Answer)
    requires Midway(w, c, id, d, left) && (forall k :: k in todo ==> k in c.outbox)
    requires death.Some? && death.value.handled < |todo| ==> todo[death.value.handled] in left
    ensures var w' := RunFrom(n, w, LastCallSchedule(id, R.Cleared(c), todo, death, answers));
            w'.c == w.c && w'.records == R.LastCall(d, R.Cleared(c), c.outbox, todo, death, answers).records
            && w'.workers.Keys == {id}
  {
    hide R.Cleared, R.Permitted, RunFrom, E.After, Take;
    if death.Some? && death.value.called && death.value.handled < |todo|
      && R.Permitted(R.Cleared(c), todo[death.value.handled].action) {
      var k := todo[death.value.handled];
      StepByStep(n, w, Start(id, k), Respond(id, answers(k)), Stop(id));
      StartKey(n, w, c, id, d, left, k);
      RespondKey(n, Take(n, w, Start(id, k)), c, id, left, k, answers(k));
    } else {
      Nothing(n, w);
    }
  }

  /** An undisturbed drain, dying on the way or not, takes the machine exactly where the drain as one operation takes
      the case and the ERP. */
  lemma DrainIsASchedule(n: nat, w: World, stream: seq<Key>, answers: Key -> E.Answer, death: Option<R.Death>)
    requires n >= 1 && w.workers == map[] && R.Lists(stream, w.c.outbox)
    ensures var w' := RunFrom(n, w, DrainSchedule(w.nextId, w.c, stream, answers, death));
            var d := R.DrainedUntil(w.c, w.records, stream, answers, death);
            w'.c == w.c.(outbox := d.outbox) && w'.records == d.records && w'.workers == map[]
  {
    hide RunFrom, R.Todo, R.DrainAll, R.Cleared, R.Sorted, R.Selected, KeysSchedule, LastCallSchedule, R.LastCall,
         R.DeadReports, R.LiftsLast, Take;
    var id, c := w.nextId, w.c;
    var todo := R.Todo(c.outbox, stream);
    var done := R.Until(todo, death);
    var start, keys := [Begin, ReadLedger(id)], KeysSchedule(id, R.Cleared(c), done, answers);
    var last := LastCallSchedule(id, R.Cleared(c), todo, death, answers);
    R.DrainsExactlyTheOpenRows(c.outbox, stream);
    StepByStep(n, w, Begin, ReadLedger(id), Begin);
    var w1 := RunFrom(n, w, start);
    Opened(n, w);
    PrefixOfTodo(todo, done, death);
    AllKeys(n, w1, c, id, R.Drain(c.outbox, w.records, []), Open(c.outbox), done, answers);
    var w2 := RunFrom(n, w1, keys);
    var d := R.DrainAll(R.Drain(c.outbox, w.records, []), R.Cleared(c), c.outbox, done, answers);
    LastCallIsSteps(n, w2, c, id, d, Open(c.outbox) - (set k | k in done), todo, death, answers);
    R.LastCallKeepsRows(d, R.Cleared(c), c.outbox, todo, death, answers);
    var w3 := RunFrom(n, w2, last);
    Stopped(n, w3, id);
    RunsCompose(n, w, start, keys);
    RunsCompose(n, w, start + keys, last);
    RunsCompose(n, w, start + keys + last, [Stop(id)]);
  }

  lemma Stopped(n: nat, w: World, id: nat)
    requires w.workers.Keys == {id}
    ensures var w' := RunFrom(n, w, [Stop(id)]); w'.c == w.c && w'.records == w.records && w'.workers == map[]
  {
    hide RunFrom;
    StepByStep(n, w, Stop(id), Stop(id), Stop(id));
    assert (w.workers - {id}).Keys == {};
  }

  lemma PrefixOfTodo(todo: seq<Key>, done: seq<Key>, death: Option<R.Death>)
    requires R.NoRepeats(todo) && done == R.Until(todo, death)
    ensures R.NoRepeats(done) && (forall k :: k in done ==> k in todo) && (death.None? ==> done == todo)
    ensures death.Some? && death.value.handled < |todo| ==> todo[death.value.handled] !in done
  {
  }

  lemma Opened(n: nat, w: World)
    requires n >= 1 && w.workers == map[]
    ensures Midway(Take(n, Take(n, w, Begin), ReadLedger(w.nextId)), w.c, w.nextId, R.Drain(w.c.outbox, w.records, []),
            Open(w.c.outbox))
  {
    hide Open;
    assert w.c == w.c.(outbox := w.c.outbox);
    var w1 := Take(n, w, Begin);
    assert w1.workers == map[w.nextId := Worker(w.c, None, {}, None)];
  }
}
