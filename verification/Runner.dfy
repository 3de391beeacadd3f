/** Draining the outbox of one case against the ERP under the effective band (app/executor/runner.py). */
module Runner {

  import opened Basics
  import opened Store
  import L = Lifecycle
  import C = Commands
  import E = Erp

  /* ---- the effective band ---- */

  datatype Effective = Effective(band: Option<Band>, gate: Option<Band>, approvalId: Option<string>)

  /** A decision applies only at the version it was committed against. */
  predicate Applies(c: Case) { c.approval.Some? && c.approval.value.version == c.version }

  function EffectiveBand(c: Case): Effective {
    if !Applies(c) then Effective(GateBand(c), GateBand(c), None)
    else if c.approval.value.decision == Approve then Effective(Some(Clear), GateBand(c), Some(c.approval.value.id))
    else Effective(Some(Blocked), GateBand(c), Some(c.approval.value.id))
  }

  predicate Cleared(c: Case) { EffectiveBand(c).band == Some(Clear) }

  /** What the drain may execute: anything when cleared, restrictive actions always. */
  predicate Permitted(cleared: bool, a: L.Action) { cleared || L.Restrictive(a) }

  /* ---- the order of a drain ---- */

  const DRAIN_ORDER: seq<L.Action> := [L.CreateSupplier, L.AttachEvidence, L.RequestRenewal, L.ApplyHold, L.ClearHold]

  /** Actions by name, the order in which dead commands are reported. */
  const NAME_ORDER: seq<L.Action> := [L.ApplyHold, L.AttachEvidence, L.ClearHold, L.CreateSupplier, L.RequestRenewal]

  function OfAction(keys: seq<Key>, a: L.Action): seq<Key> {
    if keys == [] then []
    else OfAction(keys[..|keys| - 1], a)
         + if keys[|keys| - 1].action == a then [keys[|keys| - 1]] else []
  }

  /** The stable sort of keys by the position of their action in `order`. */
  function Sorted(keys: seq<Key>, order: seq<L.Action>): seq<Key> {
    if order == [] then [] else OfAction(keys, order[0]) + Sorted(keys, order[1..])
  }

  /** The rows of a stream that a drain acts on, or the dead ones it only reports. */
  function Selected(outbox: map<Key, Row>, stream: seq<Key>, dead: bool): seq<Key> {
    if stream == [] then []
    else
      var k := stream[|stream| - 1];
      Selected(outbox, stream[..|stream| - 1], dead)
      + if k in outbox && (if dead then outbox[k].status == Dead else !C.Settled(outbox[k].status)) then [k] else []
  }

  function Todo(outbox: map<Key, Row>, stream: seq<Key>): seq<Key> {
    Sorted(Selected(outbox, stream, false), DRAIN_ORDER)
  }

  /* ---- one command, one drain ---- */

  datatype Report = RefusedByPolicy(key: Key) | Ran(key: Key, status: Status) | AlreadyDead(key: Key)

  datatype Drain = Drain(outbox: map<Key, Row>, records: E.Records, reports: seq<Report>)

  /** `read` is the outbox as the drain read it at its start; payloads come from there. */
  function DrainStep(d: Drain, cleared: bool, read: map<Key, Row>, k: Key, a: E.Answer): Drain {
    if k !in read || k !in d.outbox then d
    else if !Permitted(cleared, k.action) then d.(reports := d.reports + [RefusedByPolicy(k)])
    else
      var s := read[k].supplier;
      if E.Ok(d.records, k.action, s, k.cycle, a) then
        Drain(C.Succeeded(d.outbox, k), E.After(d.records, k.action, s, k.cycle, a), d.reports + [Ran(k, Done)])
      else
        Drain(C.FailedOnce(d.outbox, k), E.After(d.records, k.action, s, k.cycle, a),
              d.reports + [Ran(k, C.FailureStatus(d.outbox[k]))])
  }

  function DrainAll(d: Drain, cleared: bool, read: map<Key, Row>, todo: seq<Key>, answers: Key -> E.Answer): Drain {
    if todo == [] then d
    else
      var k := todo[|todo| - 1];
      DrainStep(DrainAll(d, cleared, read, todo[..|todo| - 1], answers), cleared, read, k, answers(k))
  }

  function DeadReports(keys: seq<Key>): seq<Report> {
    seq(|keys|, i requires 0 <= i < |keys| => AlreadyDead(keys[i]))
  }

  /** A whole drain of a case: the band and the ledger are read once, at its start. */
  function Drained(c: Case, records: E.Records, stream: seq<Key>, answers: Key -> E.Answer): Drain {
    var d := DrainAll(Drain(c.outbox, records, []), Cleared(c), c.outbox, Todo(c.outbox, stream), answers);
    d.(reports := d.reports + DeadReports(Sorted(Selected(c.outbox, stream, true), NAME_ORDER)))
  }

  /** An exception or a crash in the middle of a drain: after so many commands were dealt with, and perhaps after the
      call of the next one was made but before it was recorded. */
  datatype Death = Death(handled: nat, called: bool)

  function Until(todo: seq<Key>, death: Option<Death>): seq<Key> {
    if death.Some? && death.value.handled < |todo| then todo[..death.value.handled] else todo
  }

  /** The call that was made and never recorded. */
  function LastCall(d: Drain, cleared: bool, read: map<Key, Row>, todo: seq<Key>, death: Option<Death>,
                    answers: Key -> E.Answer): Drain {
    if death.Some? && death.value.called && death.value.handled < |todo| then
      var k := todo[death.value.handled];
      if k in read && Permitted(cleared, k.action)
      then d.(records := E.After(d.records, k.action, read[k].supplier, k.cycle, answers(k)))
      else d
    else d
  }

  /** A drain that may die on the way; it then reports nothing. */
  function DrainedUntil(c: Case, records: E.Records, stream: seq<Key>, answers: Key -> E.Answer,
                        death: Option<Death>): Drain {
    if death.None? then Drained(c, records, stream, answers)
    else
      var todo := Todo(c.outbox, stream);
      var d := DrainAll(Drain(c.outbox, records, []), Cleared(c), c.outbox, Until(todo, death), answers);
      LastCall(d, Cleared(c), c.outbox, todo, death, answers).(reports := [])
  }

  /** `stream` lists the outbox in whatever order the database returns it. */
  ghost predicate Lists(stream: seq<Key>, outbox: map<Key, Row>) {
    NoRepeats(stream) && forall k :: k in stream <==> k in outbox
  }

  ghost predicate NoRepeats(keys: seq<Key>) {
    forall i, j :: 0 <= i < j < |keys| ==> keys[i] != keys[j]
  }

  /** Some way of listing any set of rows. */
  ghost predicate Enumerates(order: set<Key> -> seq<Key>) {
    forall s: set<Key> :: NoRepeats(order(s)) && forall k :: k in order(s) <==> k in s
  }

  method RunCommand(erp: E.Frappe, k: Key, s: string, a: E.Answer) returns (ok: bool)
    modifies erp
    ensures erp.Data() == E.After(old(erp.Data()), k.action, s, k.cycle, a)
    ensures ok == E.Ok(old(erp.Data()), k.action, s, k.cycle, a)
  {
    match k.action
    case CreateSupplier => ok := erp.CreateSupplierIfAbsent(s, a);
    case AttachEvidence => ok := erp.AttachEvidence(s, k.cycle, a);
    case RequestRenewal => ok := erp.SendSupplierMessage(s, a);
    case ApplyHold => ok := erp.SetSupplierHold(s, a);
    case ClearHold => ok := erp.ClearSupplierHold(s, a);
  }

  /** Reads the ledger: what to act on and what is dead. */
  method ReadLedger(outbox: map<Key, Row>, stream: seq<Key>) returns (commands: seq<Key>, dead: seq<Key>)
    requires forall k :: k in stream ==> k in outbox
    ensures commands == Selected(outbox, stream, false) && dead == Selected(outbox, stream, true)
  {
    commands, dead := [], [];
    for i := 0 to |stream|
      invariant commands == Selected(outbox, stream[..i], false) && dead == Selected(outbox, stream[..i], true)
    {
      assert stream[..i + 1][..i] == stream[..i];
      var k := stream[i];
      if outbox[k].status == Done {
      } else if outbox[k].status == Dead {
        dead := dead + [k];
      } else {
        commands := commands + [k];
      }
    }
    assert stream[..|stream|] == stream;
  }

  /** The drain of one case; None is an exception, or the death of the process. A case id without a document has no
      verdict and no rows. */
  method ExecutePendingCommands(db: Firestore, erp: E.Frappe, caseId: string, stream: seq<Key>,
                                answers: Key -> E.Answer, death: Option<Death>)
    returns (results: Option<seq<Report>>)
    requires caseId in db.cases ==> Lists(stream, db.cases[caseId].outbox)
    modifies db, erp
    ensures old(caseId !in db.cases) ==>
              db.cases == old(db.cases) && erp.Data() == old(erp.Data())
              && results == if death.None? then Some([]) else None
    ensures old(caseId in db.cases) ==>
              var c := old(db.cases[caseId]);
              var d := DrainedUntil(c, old(erp.Data()), stream, answers, death);
              db.cases == old(db.cases)[caseId := c.(outbox := d.outbox)] && erp.Data() == d.records
              && results == if death.None? then Some(d.reports) else None
  {
    hide Sorted, Selected, DrainAll, LastCall, Cleared;
    if caseId !in db.cases {
      return if death.None? then Some([]) else None;
    }
    var c := db.cases[caseId];
    var cleared := EffectiveBand(c).band == Some(Clear);
    var commands, dead := ReadLedger(c.outbox, stream);
    var todo := Sorted(commands, DRAIN_ORDER);
    dead := Sorted(dead, NAME_ORDER);
    SortedComesFromStream(c.outbox, stream, false, DRAIN_ORDER);
    assert cleared == Cleared(c) by { ClearedIsTheBand(c); }
    ghost var d := DrainAll(Drain(c.outbox, erp.Data(), []), cleared, c.outbox, Until(todo, death), answers);
    LastCallKeepsRows(d, cleared, c.outbox, todo, death, answers);
    var alive, reports := DriveAll(db, erp, caseId, cleared, todo, answers, death);
    results := if alive then Some(reports + DeadReports(dead)) else None;
  }

  /** The loop over the commands of a drain. */
  method DriveAll(db: Firestore, erp: E.Frappe, caseId: string, cleared: bool, todo: seq<Key>, answers: Key -> E.Answer,
                  death: Option<Death>)
    returns (alive: bool, reports: seq<Report>)
    requires caseId in db.cases && forall k :: k in todo ==> k in db.cases[caseId].outbox
    modifies db, erp
    ensures var c := old(db.cases[caseId]);
            var d := DrainAll(Drain(c.outbox, old(erp.Data()), []), cleared, c.outbox, Until(todo, death), answers);
            db.cases == old(db.cases)[caseId := c.(outbox := d.outbox)]
            && erp.Data() == LastCall(d, cleared, c.outbox, todo, death, answers).records
            && alive == death.None? && (alive ==> reports == d.reports)
  {
    hide DrainStep, C.Succeeded, C.FailedOnce, E.After, E.Ok;
    var c := db.cases[caseId];
    reports := [];
    ghost var start := Drain(c.outbox, erp.Data(), []);
    assert c == c.(outbox := c.outbox) && db.cases == db.cases[caseId := c];
    for i := 0 to |todo|
      invariant caseId in db.cases && db.cases[caseId].outbox.Keys == c.outbox.Keys
      invariant var d := DrainAll(start, cleared, c.outbox, todo[..i], answers);
                db.cases == old(db.cases)[caseId := c.(outbox := d.outbox)] && erp.Data() == d.records
                  && reports == d.reports
      invariant death.Some? ==> i <= death.value.handled
    {
      var k := todo[i];
      assert k in c.outbox;
      if death.Some? && death.value.handled == i {
        if death.value.called && (cleared || L.Restrictive(k.action)) {
          var _ := RunCommand(erp, k, c.outbox[k].supplier, answers(k));
        }
        return false, [];
      }
      assert todo[..i + 1][..i] == todo[..i];
      reports := DriveOne(db, erp, caseId, cleared, c.outbox, k, answers(k), reports);
    }
    assert todo[..|todo|] == todo;
    alive := death.None?;
  }

  lemma LastCallKeepsRows(d: Drain, cleared: bool, read: map<Key, Row>, todo: seq<Key>, death: Option<Death>,
                          answers: Key -> E.Answer)
    ensures LastCall(d, cleared, read, todo, death, answers).outbox == d.outbox
    ensures death.None? ==> LastCall(d, cleared, read, todo, death, answers) == d
  {
  }

  lemma ClearedIsTheBand(c: Case)
    ensures Cleared(c) <==> EffectiveBand(c).band == Some(Clear)
  {
  }

  /** One iteration of the drain: refuse, or call the ERP and record how it went. */
  method DriveOne(db: Firestore, erp: E.Frappe, caseId: string, cleared: bool, read: map<Key, Row>, k: Key, a: E.Answer,
                  reports: seq<Report>)
    returns (r: seq<Report>)
    requires caseId in db.cases && k in read && k in db.cases[caseId].outbox
    modifies db, erp
    ensures var c := old(db.cases[caseId]);
            var d := DrainStep(Drain(c.outbox, old(erp.Data()), reports), cleared, read, k, a);
            db.cases == old(db.cases)[caseId := c.(outbox := d.outbox)] && erp.Data() == d.records && r == d.reports
            && d.outbox.Keys == c.outbox.Keys
  {
    hide E.After, E.Ok;
    if !cleared && !L.Restrictive(k.action) {
      assert db.cases[caseId] == db.cases[caseId].(outbox := db.cases[caseId].outbox);
      assert db.cases == db.cases[caseId := db.cases[caseId]];
      return reports + [RefusedByPolicy(k)];
    }
    var ok := RunCommand(erp, k, read[k].supplier, a);
    if ok {
      C.RecordSuccess(db, caseId, k);
      r := reports + [Ran(k, Done)];
    } else {
      var status := C.RecordFailure(db, caseId, k);
      r := reports + [Ran(k, status)];
    }
  }

  /* ---- what is driven ---- */

  lemma {:induction false} SelectedIsExact(outbox: map<Key, Row>, stream: seq<Key>, dead: bool)
    ensures forall k :: k in Selected(outbox, stream, dead) <==>
              k in stream && k in outbox && (if dead then outbox[k].status == Dead else !C.Settled(outbox[k].status))
    ensures NoRepeats(stream) ==> NoRepeats(Selected(outbox, stream, dead))
  {
    if stream != [] {
      var last := |stream| - 1;
      SelectedIsExact(outbox, stream[..last], dead);
      assert forall k :: k in stream <==> k in stream[..last] || k == stream[last];
      if NoRepeats(stream) {
        assert stream[last] !in stream[..last];
      }
    }
  }

  lemma {:induction false} OfActionIsExact(keys: seq<Key>, a: L.Action)
    ensures forall k :: k in OfAction(keys, a) <==> k in keys && k.action == a
    ensures NoRepeats(keys) ==> NoRepeats(OfAction(keys, a))
  {
    if keys != [] {
      var last := |keys| - 1;
      OfActionIsExact(keys[..last], a);
      assert forall k :: k in keys <==> k in keys[..last] || k == keys[last];
      if NoRepeats(keys) {
        assert keys[last] !in keys[..last];
      }
    }
  }

  /** `a` comes before `b` in `order`. */
  ghost predicate Precedes(order: seq<L.Action>, a: L.Action, b: L.Action) {
    exists p, q :: 0 <= p < q < |order| && order[p] == a && order[q] == b
  }

  lemma PrecedesInFront(order: seq<L.Action>, a: L.Action, b: L.Action)
    requires order != []
    ensures Precedes(order[1..], a, b) ==> Precedes(order, a, b)
    ensures a == order[0] && b in order[1..] ==> Precedes(order, a, b)
  {
    if Precedes(order[1..], a, b) {
      var p, q :| 0 <= p < q < |order[1..]| && order[1..][p] == a && order[1..][q] == b;
      assert order[p + 1] == a && order[q + 1] == b;
    }
    if a == order[0] && b in order[1..] {
      var q :| 0 <= q < |order[1..]| && order[1..][q] == b;
      assert order[0] == a && order[q + 1] == b;
    }
  }

  /** Sorting keeps every key whose action is listed, and once. */
  lemma {:induction false} SortedIsExact(keys: seq<Key>, order: seq<L.Action>)
    requires forall i, j :: 0 <= i < j < |order| ==> order[i] != order[j]
    ensures forall k :: k in Sorted(keys, order) <==> k in keys && k.action in order
    ensures NoRepeats(keys) ==> NoRepeats(Sorted(keys, order))
  {
    if order != [] {
      SortedIsExact(keys, order[1..]);
      OfActionIsExact(keys, order[0]);
      assert order[0] !in order[1..];
      assert forall a :: a in order <==> a == order[0] || a in order[1..];
    }
  }

  /** Sorting puts earlier actions first. */
  lemma {:induction false} SortedIsInOrder(keys: seq<Key>, order: seq<L.Action>)
    requires forall i, j :: 0 <= i < j < |order| ==> order[i] != order[j]
    ensures forall i, j :: 0 <= i < j < |Sorted(keys, order)| ==>
              Sorted(keys, order)[i].action == Sorted(keys, order)[j].action
              || Precedes(order, Sorted(keys, order)[i].action, Sorted(keys, order)[j].action)
  {
    hide Precedes, OfAction;
    if order != [] {
      var head, tail, all := OfAction(keys, order[0]), Sorted(keys, order[1..]), Sorted(keys, order);
      assert all == head + tail;
      SortedIsInOrder(keys, order[1..]);
      SortedIsExact(keys, order[1..]);
      OfActionIsExact(keys, order[0]);
      forall i, j | 0 <= i < j < |all|
        ensures all[i].action == all[j].action || Precedes(order, all[i].action, all[j].action)
      {
        PrecedesInFront(order, all[i].action, all[j].action);
        if i >= |head| {
          assert all[i] == tail[i - |head|] && all[j] == tail[j - |head|];
        } else if j >= |head| {
          assert all[i] in head && all[j] in tail;
        } else {
          assert all[i] in head && all[j] in head;
        }
      }
    }
  }

  lemma EveryActionIsOrdered(a: L.Action)
    ensures a in DRAIN_ORDER && a in NAME_ORDER
    ensures forall i, j :: 0 <= i < j < |DRAIN_ORDER| ==> DRAIN_ORDER[i] != DRAIN_ORDER[j]
    ensures forall i, j :: 0 <= i < j < |NAME_ORDER| ==> NAME_ORDER[i] != NAME_ORDER[j]
  {
    match a
    case CreateSupplier => assert DRAIN_ORDER[0] == a && NAME_ORDER[3] == a;
    case AttachEvidence => assert DRAIN_ORDER[1] == a && NAME_ORDER[1] == a;
    case RequestRenewal => assert DRAIN_ORDER[2] == a && NAME_ORDER[4] == a;
    case ApplyHold => assert DRAIN_ORDER[3] == a && NAME_ORDER[0] == a;
    case ClearHold => assert DRAIN_ORDER[4] == a && NAME_ORDER[2] == a;
  }

  lemma SortedComesFromStream(outbox: map<Key, Row>, stream: seq<Key>, dead: bool, order: seq<L.Action>)
    requires order == DRAIN_ORDER || order == NAME_ORDER
    ensures forall k :: k in Sorted(Selected(outbox, stream, dead), order) <==>
              k in stream && k in outbox && (if dead then outbox[k].status == Dead else !C.Settled(outbox[k].status))
    ensures NoRepeats(stream) ==> NoRepeats(Sorted(Selected(outbox, stream, dead), order))
  {
    hide Sorted, Selected;
    EveryActionIsOrdered(L.ApplyHold);
    SelectedIsExact(outbox, stream, dead);
    SortedIsExact(Selected(outbox, stream, dead), order);
    forall k: Key ensures k.action in order { EveryActionIsOrdered(k.action); }
  }

  /** A drain acts on exactly the rows that are neither done nor dead, each once, whatever order the database
      lists them in; evidence is attached before a hold is cleared, and clearing comes last of all. */
  lemma DrainsExactlyTheOpenRows(outbox: map<Key, Row>, stream: seq<Key>)
    requires Lists(stream, outbox)
    ensures forall k :: k in Todo(outbox, stream) <==> k in outbox && !C.Settled(outbox[k].status)
    ensures NoRepeats(Todo(outbox, stream))
    ensures forall i, j :: 0 <= i < |Todo(outbox, stream)| && 0 <= j < |Todo(outbox, stream)|
                           && Todo(outbox, stream)[i].action == L.AttachEvidence
                             && Todo(outbox, stream)[j].action == L.ClearHold
                           ==> i < j
    ensures LiftsLast(Todo(outbox, stream))
  {
    hide Sorted, Selected;
    SortedComesFromStream(outbox, stream, false, DRAIN_ORDER);
    EveryActionIsOrdered(L.AttachEvidence);
    SelectedIsExact(outbox, stream, false);
    SortedIsInOrder(Selected(outbox, stream, false), DRAIN_ORDER);
    ClearingIsLast();
  }

  lemma ClearingIsLast()
    ensures forall a :: !Precedes(DRAIN_ORDER, L.ClearHold, a)
  {
  }

  /** Nothing but releases comes after a release. */
  ghost predicate LiftsLast(todo: seq<Key>) {
    forall i, j :: 0 <= i < j < |todo| && todo[i].action == L.ClearHold ==> todo[j].action == L.ClearHold
  }

  /* ---- the effect of a drain ---- */

  /** What one drain may do to a row: nothing, finish it, or count one failure against it. */
  ghost predicate Moved(cleared: bool, before: Row, after: Row, a: L.Action) {
    if !Permitted(cleared, a) then after == before
    else after == before.(status := Done)
         || after == before.(status := C.FailureStatus(before), executionAttempts := before.executionAttempts + 1)
  }

  lemma {:induction false} DrainAllMovesItsRows(d: Drain, cleared: bool, read: map<Key, Row>, todo: seq<Key>,
                                                answers: Key -> E.Answer)
    requires NoRepeats(todo) && read.Keys == d.outbox.Keys
    requires forall k :: k in todo ==> k in read
    ensures var d' := DrainAll(d, cleared, read, todo, answers);
            d'.outbox.Keys == d.outbox.Keys
            && (forall k :: k in d.outbox && k !in todo ==> d'.outbox[k] == d.outbox[k])
            && (forall k :: k in todo ==> Moved(cleared, d.outbox[k], d'.outbox[k], k.action))
  {
    if todo != [] {
      var last := |todo| - 1;
      var init := todo[..last];
      DrainAllMovesItsRows(d, cleared, read, init, answers);
      assert todo[last] !in init;
      assert forall k :: k in todo <==> k in init || k == todo[last];
      StepMoves(DrainAll(d, cleared, read, init, answers), cleared, read, todo[last], answers(todo[last]));
    }
  }

  lemma StepMoves(d: Drain, cleared: bool, read: map<Key, Row>, k: Key, a: E.Answer)
    requires k in read && k in d.outbox
    ensures var d' := DrainStep(d, cleared, read, k, a);
            d'.outbox.Keys == d.outbox.Keys && Moved(cleared, d.outbox[k], d'.outbox[k], k.action)
            && forall o :: o in d.outbox && o != k ==> d'.outbox[o] == d.outbox[o]
  {
    hide E.After, E.Ok;
  }

  lemma DrainMovesOpenRows(c: Case, records: E.Records, stream: seq<Key>, answers: Key -> E.Answer)
    requires Lists(stream, c.outbox)
    ensures var after := Drained(c, records, stream, answers).outbox;
            after.Keys == c.outbox.Keys
            && forall k :: k in c.outbox ==>
                 if C.Settled(c.outbox[k].status) then after[k] == c.outbox[k]
                 else Moved(Cleared(c), c.outbox[k], after[k], k.action)
  {
    hide DrainAll, Todo;
    DrainsExactlyTheOpenRows(c.outbox, stream);
    DrainAllMovesItsRows(Drain(c.outbox, records, []), Cleared(c), c.outbox, Todo(c.outbox, stream), answers);
  }

  /** A drain that dies on the way leaves each row as it was, or as the whole drain could have left it. */
  lemma DyingDrainMovesOpenRows(c: Case, records: E.Records, stream: seq<Key>, answers: Key -> E.Answer,
                                death: Option<Death>)
    requires Lists(stream, c.outbox)
    ensures var after := DrainedUntil(c, records, stream, answers, death).outbox;
            after.Keys == c.outbox.Keys
            && forall k :: k in c.outbox ==>
                 after[k] == c.outbox[k]
                   || (!C.Settled(c.outbox[k].status) && Moved(Cleared(c), c.outbox[k], after[k], k.action))
  {
    hide DrainAll, Todo, Cleared;
    if death.None? {
      DrainMovesOpenRows(c, records, stream, answers);
    } else {
      DrainsExactlyTheOpenRows(c.outbox, stream);
      var done := Until(Todo(c.outbox, stream), death);
      assert forall k :: k in done ==> k in Todo(c.outbox, stream);
      DrainAllMovesItsRows(Drain(c.outbox, records, []), Cleared(c), c.outbox, done, answers);
    }
  }

  /** The ERP as the drain finds it when it comes to the `i`-th of its commands. */
  function RecordsBefore(c: Case, records: E.Records, stream: seq<Key>, answers: Key -> E.Answer, i: nat): E.Records
    requires i <= |Todo(c.outbox, stream)|
  {
    DrainAll(Drain(c.outbox, records, []), Cleared(c), c.outbox, Todo(c.outbox, stream)[..i], answers).records
  }

  /** A driven row is finished if and only if its call returned, made for the supplier and the cycle of the row as it
      was read, on the ERP as the commands before it had left it; it is failed or parked otherwise. */
  lemma RowsFollowTheirCalls(c: Case, records: E.Records, stream: seq<Key>, answers: Key -> E.Answer, i: nat)
    requires Lists(stream, c.outbox) && i < |Todo(c.outbox, stream)|
    requires Permitted(Cleared(c), Todo(c.outbox, stream)[i].action)
    ensures var k, after := Todo(c.outbox, stream)[i], Drained(c, records, stream, answers);
            k in c.outbox && k in after.outbox
            && (after.outbox[k].status == Done <==>
                  E.Ok(RecordsBefore(c, records, stream, answers, i), k.action, c.outbox[k].supplier, k.cycle,
                       answers(k)))
            && (after.outbox[k].status != Done ==>
                  after.outbox[k].executionAttempts == c.outbox[k].executionAttempts + 1
                  && after.outbox[k].status == if c.outbox[k].executionAttempts < 4 then Failed else Dead)
  {
    hide Todo, Cleared, E.Ok, E.After, Permitted;
    DrainsExactlyTheOpenRows(c.outbox, stream);
    RowFollowsItsCall(Drain(c.outbox, records, []), Cleared(c), Todo(c.outbox, stream), answers, i);
  }

  lemma {:induction false} RowFollowsItsCall(d: Drain, cleared: bool, todo: seq<Key>, answers: Key -> E.Answer, i: nat)
    requires NoRepeats(todo) && i < |todo| && Permitted(cleared, todo[i].action)
    requires forall k :: k in todo ==> k in d.outbox
    ensures var k, after := todo[i], DrainAll(d, cleared, d.outbox, todo, answers).outbox;
            var before := DrainAll(d, cleared, d.outbox, todo[..i], answers).records;
            k in after
            && after[k] == if E.Ok(before, k.action, d.outbox[k].supplier, k.cycle, answers(k))
                           then d.outbox[k].(status := Done)
                           else d.outbox[k].(status := C.FailureStatus(d.outbox[k]),
                                             executionAttempts := d.outbox[k].executionAttempts + 1)
  {
    hide E.Ok, E.After;
    var last := |todo| - 1;
    var init := todo[..last];
    DrainAllMovesItsRows(d, cleared, d.outbox, init, answers);
    assert todo[last] !in init;
    if i < last {
      assert init[i] == todo[i] && init[..i] == todo[..i];
      RowFollowsItsCall(d, cleared, init, answers, i);
      StepMoves(DrainAll(d, cleared, d.outbox, init, answers), cleared, d.outbox, todo[last], answers(todo[last]));
    }
  }

  /* ---- what a drain reports ---- */

  /** A report tells what became of its row: withheld, run to the status the row now has, or dead before. */
  predicate Tells(cleared: bool, before: map<Key, Row>, after: map<Key, Row>, r: Report) {
    r.key in before && r.key in after
    && match r
       case RefusedByPolicy(k) => !C.Settled(before[k].status) && !Permitted(cleared, k.action) && after[k] == before[k]
       case Ran(k, status) =>
         !C.Settled(before[k].status) && Permitted(cleared, k.action) && status == after[k].status && status != Pending
       case AlreadyDead(k) => before[k].status == Dead && after[k] == before[k]
  }

  /** The reports are about these keys, in this order. */
  ghost predicate About(reports: seq<Report>, keys: seq<Key>) {
    |reports| == |keys| && forall i :: 0 <= i < |keys| ==> reports[i].key == keys[i]
  }

  lemma StepReports(d: Drain, cleared: bool, read: map<Key, Row>, k: Key, a: E.Answer)
    requires k in read && k in d.outbox && !C.Settled(d.outbox[k].status)
    ensures var d' := DrainStep(d, cleared, read, k, a);
            |d'.reports| == |d.reports| + 1 && d'.reports[..|d.reports|] == d.reports
            && d'.reports[|d.reports|].key == k && d'.outbox.Keys == d.outbox.Keys
            && (forall o :: o in d.outbox && o != k ==> d'.outbox[o] == d.outbox[o])
            && Tells(cleared, d.outbox, d'.outbox, d'.reports[|d.reports|])
  {
    hide E.Ok, E.After;
  }

  lemma {:induction false} DrainAllReports(d: Drain, cleared: bool, todo: seq<Key>, answers: Key -> E.Answer)
    requires NoRepeats(todo) && d.reports == []
    requires forall k :: k in todo ==> k in d.outbox && !C.Settled(d.outbox[k].status)
    ensures var d' := DrainAll(d, cleared, d.outbox, todo, answers);
            d'.outbox.Keys == d.outbox.Keys && About(d'.reports, todo)
            && (forall k :: k in d.outbox && k !in todo ==> d'.outbox[k] == d.outbox[k])
            && forall r :: r in d'.reports ==> Tells(cleared, d.outbox, d'.outbox, r)
  {
    hide DrainStep;
    if todo != [] {
      var init, last := todo[..|todo| - 1], todo[|todo| - 1];
      DrainAllReports(d, cleared, init, answers);
      var before := DrainAll(d, cleared, d.outbox, init, answers);
      var after := DrainAll(d, cleared, d.outbox, todo, answers);
      assert last !in init;
      StepReports(before, cleared, d.outbox, last, answers(last));
      forall r | r in after.reports ensures Tells(cleared, d.outbox, after.outbox, r) {
        var i :| 0 <= i < |after.reports| && after.reports[i] == r;
        if i < |before.reports| {
          assert before.reports[i] == after.reports[i] && r in before.reports;
          assert r.key == init[i] && r.key != last;
        }
      }
    }
  }

  /** A drain that gets through reports on every row that is not done, once and in order - the open ones as they are
      driven, then the dead ones by name -, and each report tells what became of its row. */
  lemma ReportsTellTheRows(c: Case, records: E.Records, stream: seq<Key>, answers: Key -> E.Answer)
    requires Lists(stream, c.outbox)
    ensures var d := Drained(c, records, stream, answers);
            (forall r :: r in d.reports ==> Tells(Cleared(c), c.outbox, d.outbox, r))
            && About(d.reports, Todo(c.outbox, stream) + Sorted(Selected(c.outbox, stream, true), NAME_ORDER))
            && (forall i, j :: 0 <= i < j < |d.reports| ==> d.reports[i].key != d.reports[j].key)
            && forall k :: k in c.outbox && c.outbox[k].status != Done ==> exists r :: r in d.reports && r.key == k
  {
    hide DrainAll, Sorted, Selected, Cleared, Tells;
    var todo, dead := Todo(c.outbox, stream), Sorted(Selected(c.outbox, stream, true), NAME_ORDER);
    var start := Drain(c.outbox, records, []);
    var d := Drained(c, records, stream, answers);
    SortedComesFromStream(c.outbox, stream, false, DRAIN_ORDER);
    SortedComesFromStream(c.outbox, stream, true, NAME_ORDER);
    DrainAllReports(start, Cleared(c), todo, answers);
    var driven := DrainAll(start, Cleared(c), c.outbox, todo, answers);
    assert d.reports == driven.reports + DeadReports(dead);
    forall r | r in d.reports ensures Tells(Cleared(c), c.outbox, d.outbox, r) {
      var i :| 0 <= i < |d.reports| && d.reports[i] == r;
      if i < |todo| {
        assert r in driven.reports;
      } else {
        var k := dead[i - |todo|];
        assert k in dead && r == AlreadyDead(k) && k !in todo;
        assert Tells(Cleared(c), c.outbox, d.outbox, r) by { DeadTell(Cleared(c), c.outbox, d.outbox, k); }
      }
    }
    var keys := todo + dead;
    forall i, j | 0 <= i < j < |keys| ensures keys[i] != keys[j] {
      if i < |todo| && j >= |todo| {
        assert keys[i] in todo && keys[j] in dead;
      }
    }
    forall k | k in c.outbox && c.outbox[k].status != Done ensures exists r :: r in d.reports && r.key == k {
      assert k in keys;
      var i :| 0 <= i < |keys| && keys[i] == k;
      assert d.reports[i].key == k && d.reports[i] in d.reports;
    }
  }

  /** Suppliers are created first, then files uploaded and renewals requested; holds follow, and releases. */
  function Turn(a: L.Action): nat {
    match a
    case CreateSupplier => 0
    case AttachEvidence => 1
    case RequestRenewal => 2
    case ApplyHold => 3
    case ClearHold => 4
  }

  /** The place of an action's name in the alphabet. */
  function Alphabetically(a: L.Action): nat {
    match a
    case ApplyHold => 0
    case AttachEvidence => 1
    case ClearHold => 2
    case CreateSupplier => 3
    case RequestRenewal => 4
  }

  lemma OrdersAreTheirTurns()
    ensures forall a, b :: Precedes(DRAIN_ORDER, a, b) ==> Turn(a) < Turn(b)
    ensures forall a, b :: Precedes(NAME_ORDER, a, b) ==> Alphabetically(a) < Alphabetically(b)
  {
  }

  /** The open rows are reported before the dead ones, by the turn of their actions, and the dead ones by name. */
  lemma ReportsComeInTurn(c: Case, records: E.Records, stream: seq<Key>, answers: Key -> E.Answer, i: nat, j: nat)
    requires Lists(stream, c.outbox) && i < j < |Drained(c, records, stream, answers).reports|
    ensures var first := Drained(c, records, stream, answers).reports[i];
            var second := Drained(c, records, stream, answers).reports[j];
            (first.AlreadyDead? ==>
               second.AlreadyDead? && Alphabetically(first.key.action) <= Alphabetically(second.key.action))
            && (!second.AlreadyDead? ==> Turn(first.key.action) <= Turn(second.key.action))
  {
    hide Drained, Sorted, Selected, Cleared, Precedes;
    ReportsTellTheRows(c, records, stream, answers);
    var d, todo := Drained(c, records, stream, answers), Todo(c.outbox, stream);
    var dead := Sorted(Selected(c.outbox, stream, true), NAME_ORDER);
    assert Tells(Cleared(c), c.outbox, d.outbox, d.reports[i]) && Tells(Cleared(c), c.outbox, d.outbox, d.reports[j]);
    SortedComesFromStream(c.outbox, stream, false, DRAIN_ORDER);
    SortedComesFromStream(c.outbox, stream, true, NAME_ORDER);
    EveryActionIsOrdered(L.ApplyHold);
    SortedIsInOrder(Selected(c.outbox, stream, false), DRAIN_ORDER);
    SortedIsInOrder(Selected(c.outbox, stream, true), NAME_ORDER);
    OrdersAreTheirTurns();
    assert d.reports[i].key == (todo + dead)[i] && d.reports[j].key == (todo + dead)[j];
    assert forall x: nat :: x < |todo| ==> todo[x] in todo;
    assert forall x: nat :: x < |dead| ==> dead[x] in dead;
  }

  lemma DeadTell(cleared: bool, before: map<Key, Row>, after: map<Key, Row>, k: Key)
    requires k in before && k in after && before[k].status == Dead && after[k] == before[k]
    ensures Tells(cleared, before, after, AlreadyDead(k))
  {
  }

  /* ---- withholding ---- */

  /** Only restrictive calls reach the ERP: nothing is granted and no hold is lifted. */
  ghost predicate OnlyRestricted(before: E.Records, after: E.Records) {
    after.suppliers == before.suppliers && after.files == before.files && after.mails == before.mails
    && before.onHold <= after.onHold
  }

  lemma {:induction false} UnclearedDrainAll(d: Drain, read: map<Key, Row>, todo: seq<Key>, answers: Key -> E.Answer)
    ensures OnlyRestricted(d.records, DrainAll(d, false, read, todo, answers).records)
  {
    if todo != [] {
      UnclearedDrainAll(d, read, todo[..|todo| - 1], answers);
    }
  }

  /** Several drains in a row, with nothing else happening to the case between them. */
  function DrainedTimes(c: Case, records: E.Records, streams: seq<seq<Key>>, answers: seq<Key -> E.Answer>): Drain
    requires |streams| == |answers|
  {
    if |streams| == 0 then Drain(c.outbox, records, [])
    else
      var before := DrainedTimes(c, records, streams[..|streams| - 1], answers[..|streams| - 1]);
      Drained(c.(outbox := before.outbox), before.records, streams[|streams| - 1], answers[|streams| - 1])
  }

  /** While the effective band is not clear, any number of drains leave every permissive row and its counters,
      and all permissive ERP records, as they were. */
  lemma {:induction false} NothingIsGrantedUncleared(c: Case, records: E.Records, streams: seq<seq<Key>>,
                                                     answers: seq<Key -> E.Answer>)
    requires |streams| == |answers| && !Cleared(c)
    requires forall i :: 0 <= i < |streams| ==> NoRepeats(streams[i]) && forall k :: k in streams[i] <==> k in c.outbox
    ensures var d := DrainedTimes(c, records, streams, answers);
            d.outbox.Keys == c.outbox.Keys && OnlyRestricted(records, d.records)
            && forall k :: k in c.outbox && k.action != L.ApplyHold ==> d.outbox[k] == c.outbox[k]
  {
    hide DrainAll, Todo;
    if |streams| > 0 {
      var last := |streams| - 1;
      NothingIsGrantedUncleared(c, records, streams[..last], answers[..last]);
      var before := DrainedTimes(c, records, streams[..last], answers[..last]);
      var c' := c.(outbox := before.outbox);
      assert Lists(streams[last], c'.outbox);
      DrainMovesOpenRows(c', before.records, streams[last], answers[last]);
      UnclearedDrainAll(Drain(c'.outbox, before.records, []), c'.outbox, Todo(c'.outbox, streams[last]), answers[last]);
    }
  }

  /** A hold still runs: every drain, cleared or not, finishes an open one or counts a failed call against it. */
  lemma HoldsRunUncleared(c: Case, records: E.Records, stream: seq<Key>, answers: Key -> E.Answer, k: Key)
    requires Lists(stream, c.outbox) && k in c.outbox && k.action == L.ApplyHold && !C.Settled(c.outbox[k].status)
    ensures var after := Drained(c, records, stream, answers).outbox;
            k in after
            && (after[k].status == Done || after[k].executionAttempts == c.outbox[k].executionAttempts + 1)
  {
    DrainMovesOpenRows(c, records, stream, answers);
  }

  /** A decision outlives the verdict it was taken on: if the gate is run again at the same version and now
      blocks, an approval at that version still clears the case for the executor. */
  lemma ApprovalOverridesAnyGateBand(c: Case)
    requires Applies(c)
    ensures Cleared(c) <==> c.approval.value.decision == Approve
    ensures forall policy: PolicyBlock {:trigger c.(policy := policy)} :: Cleared(c.(policy := policy)) == Cleared(c)
    ensures forall v: nat {:trigger c.(version := v)} :: v != c.version ==>
              EffectiveBand(c.(version := v)).band == GateBand(c)
  {
  }
}
