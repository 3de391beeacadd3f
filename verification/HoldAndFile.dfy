/** What a drain makes of a supplier's hold and of one certificate file, whatever the ledger holds and the ERP answers,
    and when it leaves a supplier released whose evidence is missing. */
module HoldAndFile {

  import opened Basics
  import opened Store
  import opened Runner
  import C = Commands
  import E = Erp
  import L = Lifecycle

  /* ---- the calls a drain makes ---- */

  /** The commands a drain gets to call, dying or not. */
  function Reached(todo: seq<Key>, death: Option<Death>): seq<Key> {
    if death.None? || |todo| <= death.value.handled then todo
    else if death.value.called then todo[..death.value.handled + 1]
    else todo[..death.value.handled]
  }

  /** A call that is made and not recorded leaves the same ERP as one that is. */
  lemma RecordsOfTheReached(c: Case, records: E.Records, stream: seq<Key>, answers: Key -> E.Answer,
                            death: Option<Death>)
    requires Lists(stream, c.outbox)
    ensures var start, reached := Drain(c.outbox, records, []), Reached(Todo(c.outbox, stream), death);
            DrainedUntil(c, records, stream, answers, death).records
            == DrainAll(start, Cleared(c), c.outbox, reached, answers).records
  {
    hide Todo, Cleared, Sorted, Selected, DeadReports, DrainAll, DrainStep, E.After;
    var todo, start := Todo(c.outbox, stream), Drain(c.outbox, records, []);
    DrainsExactlyTheOpenRows(c.outbox, stream);
    if death.Some? && death.value.handled < |todo| {
      var i := death.value.handled;
      var done := todo[..i];
      assert todo[i] in todo && forall k :: k in done ==> k in todo;
      DrainAllMovesItsRows(start, Cleared(c), c.outbox, done, answers);
      OneCallMore(start, Cleared(c), c.outbox, todo, i, answers);
    }
  }

  lemma OneCallMore(start: Drain, cleared: bool, read: map<Key, Row>, todo: seq<Key>, i: nat, answers: Key -> E.Answer)
    requires i < |todo| && todo[i] in read && todo[i] in DrainAll(start, cleared, read, todo[..i], answers).outbox
    ensures var before := DrainAll(start, cleared, read, todo[..i], answers).records;
            DrainAll(start, cleared, read, todo[..i + 1], answers).records ==
              if Permitted(cleared, todo[i].action)
              then E.After(before, todo[i].action, read[todo[i]].supplier, todo[i].cycle, answers(todo[i]))
              else before
  {
    hide E.After, E.Ok;
    assert todo[..i + 1][..i] == todo[..i];
  }

  /* ---- holds and files ---- */

  /** Among `keys`, a call of action `a` for `s` that reaches the ERP. */
  ghost predicate Applied(read: map<Key, Row>, keys: seq<Key>, answers: Key -> E.Answer, a: L.Action, s: string) {
    exists k :: k in keys && k in read && k.action == a && read[k].supplier == s && answers(k).applied
  }

  /** Among `keys`, the upload of (`s`, `n`), reaching the ERP. */
  predicate Uploads(read: map<Key, Row>, keys: seq<Key>, answers: Key -> E.Answer, s: string, n: int) {
    var k := Key(L.AttachEvidence, n);
    k in keys && k in read && read[k].supplier == s && answers(k).lookup && answers(k).applied
  }

  /** Holds are applied before they are lifted, and lifted only in a cleared drain. */
  lemma {:induction false} AfterTheCalls(d: Drain, cleared: bool, read: map<Key, Row>, keys: seq<Key>,
                                         answers: Key -> E.Answer, s: string, n: int)
    requires LiftsLast(keys) && read.Keys == d.outbox.Keys && (forall k :: k in keys ==> k in read)
    ensures var d' := DrainAll(d, cleared, read, keys, answers);
            d'.outbox.Keys == d.outbox.Keys
            && (s !in d'.records.onHold <==>
                  (cleared && Applied(read, keys, answers, L.ClearHold, s))
                  || (s !in d.records.onHold && !Applied(read, keys, answers, L.ApplyHold, s)))
            && ((s, n) in d'.records.files <==>
                  (s, n) in d.records.files || (cleared && Uploads(read, keys, answers, s, n)))
  {
    hide DrainStep;
    if keys != [] {
      var init, last := keys[..|keys| - 1], keys[|keys| - 1];
      AfterTheCalls(d, cleared, read, init, answers, s, n);
      AfterOneCall(DrainAll(d, cleared, read, init, answers), cleared, read, last, answers(last), s, n);
      forall a: L.Action
        ensures Applied(read, keys, answers, a, s) <==>
                  Applied(read, init, answers, a, s)
                  || (last.action == a && read[last].supplier == s && answers(last).applied)
      {
        OneMoreCall(read, keys, answers, a, s);
      }
      assert forall k :: k in keys <==> k in init || k == last;
      if last.action == L.ApplyHold {
        assert !Applied(read, keys, answers, L.ClearHold, s);
      }
    }
  }

  lemma OneMoreCall(read: map<Key, Row>, keys: seq<Key>, answers: Key -> E.Answer, a: L.Action, s: string)
    requires keys != [] && forall k :: k in keys ==> k in read
    ensures var last := keys[|keys| - 1];
            Applied(read, keys, answers, a, s) <==>
              Applied(read, keys[..|keys| - 1], answers, a, s)
              || (last.action == a && read[last].supplier == s && answers(last).applied)
  {
    assert forall k :: k in keys <==> k in keys[..|keys| - 1] || k == keys[|keys| - 1];
  }

  lemma AfterOneCall(d: Drain, cleared: bool, read: map<Key, Row>, k: Key, a: E.Answer, s: string, n: int)
    requires k in read && k in d.outbox
    ensures var d' := DrainStep(d, cleared, read, k, a);
            var mine := read[k].supplier == s && a.applied;
            d'.outbox.Keys == d.outbox.Keys
            && (s in d'.records.onHold <==>
                  if k.action == L.ApplyHold && mine then true
                  else if k.action == L.ClearHold && mine && cleared then false
                  else s in d.records.onHold)
            && ((s, n) in d'.records.files <==>
                  (s, n) in d.records.files || (k == Key(L.AttachEvidence, n) && mine && a.lookup && cleared))
  {
    hide E.Ok;
  }

  /** After any drain, dying or not: the hold is gone exactly when a release was applied in a cleared case, or there
      was none and none was applied; the file is there exactly when it was before, or its upload was applied. */
  lemma DyingHoldAndFile(c: Case, records: E.Records, stream: seq<Key>, answers: Key -> E.Answer,
                         death: Option<Death>, s: string, n: int)
    requires Lists(stream, c.outbox)
    ensures var after := DrainedUntil(c, records, stream, answers, death).records;
            var reached := Reached(Todo(c.outbox, stream), death);
            (s !in after.onHold <==>
               (Cleared(c) && Applied(c.outbox, reached, answers, L.ClearHold, s))
               || (s !in records.onHold && !Applied(c.outbox, reached, answers, L.ApplyHold, s)))
            && ((s, n) in after.files <==>
                  (s, n) in records.files || (Cleared(c) && Uploads(c.outbox, reached, answers, s, n)))
  {
    hide DrainAll, Todo, Cleared, DrainedUntil, Applied, Uploads, Sorted, Selected;
    var reached := Reached(Todo(c.outbox, stream), death);
    DrainsExactlyTheOpenRows(c.outbox, stream);
    RecordsOfTheReached(c, records, stream, answers, death);
    assert forall k :: k in reached ==> k in Todo(c.outbox, stream);
    AfterTheCalls(Drain(c.outbox, records, []), Cleared(c), c.outbox, reached, answers, s, n);
  }

  /** Releases come last: a drain that has got as far as calling one, dying then or later, has called every other
      open command before. */
  lemma ReleasesAreReachedLast(outbox: map<Key, Row>, stream: seq<Key>, death: Option<Death>, k: Key, o: Key)
    requires Lists(stream, outbox)
    requires k in Reached(Todo(outbox, stream), death) && k.action == L.ClearHold
    requires o in outbox && !C.Settled(outbox[o].status) && o.action != L.ClearHold
    ensures o in Reached(Todo(outbox, stream), death)
  {
    hide Todo, Sorted, Selected;
    var todo := Todo(outbox, stream);
    var reached := Reached(todo, death);
    DrainsExactlyTheOpenRows(outbox, stream);
    var i :| 0 <= i < |reached| && reached[i] == k;
    var j :| 0 <= j < |todo| && todo[j] == o;
    assert todo[i] == k;
    assert j < i && reached[j] == o;
  }

  /* ---- in terms of the ledger ---- */

  /** A row of the ledger that a drain may act on for `s`. */
  predicate OpenFor(c: Case, k: Key, s: string) {
    k in c.outbox && !C.Settled(c.outbox[k].status) && c.outbox[k].supplier == s
  }

  /** An open command of action `a` for `s` reaches the ERP. */
  ghost predicate AppliedFor(c: Case, answers: Key -> E.Answer, a: L.Action, s: string) {
    exists k :: OpenFor(c, k, s) && k.action == a && answers(k).applied
  }

  predicate UploadsFor(c: Case, answers: Key -> E.Answer, s: string, n: int) {
    var k := Key(L.AttachEvidence, n);
    OpenFor(c, k, s) && answers(k).lookup && answers(k).applied
  }

  lemma AllOpenRowsAreReached(c: Case, stream: seq<Key>, answers: Key -> E.Answer, a: L.Action, s: string, n: int)
    requires Lists(stream, c.outbox)
    ensures Applied(c.outbox, Todo(c.outbox, stream), answers, a, s) <==> AppliedFor(c, answers, a, s)
    ensures Uploads(c.outbox, Todo(c.outbox, stream), answers, s, n) <==> UploadsFor(c, answers, s, n)
  {
    hide Todo;
    DrainsExactlyTheOpenRows(c.outbox, stream);
    if k :| OpenFor(c, k, s) && k.action == a && answers(k).applied {
      assert k in Todo(c.outbox, stream);
    }
  }

  /** After a drain that gets through: the hold is gone exactly when the case is cleared and an open release is applied,
      or it was not there and no open hold is applied; the file is there exactly when it was before, or the case is
      cleared and an open upload of it is applied. */
  lemma HoldAndFileExactly(c: Case, records: E.Records, stream: seq<Key>, answers: Key -> E.Answer, s: string, n: int)
    requires Lists(stream, c.outbox)
    ensures var after := Drained(c, records, stream, answers).records;
            (s !in after.onHold <==>
               (Cleared(c) && AppliedFor(c, answers, L.ClearHold, s))
               || (s !in records.onHold && !AppliedFor(c, answers, L.ApplyHold, s)))
            && ((s, n) in after.files <==> (s, n) in records.files || (Cleared(c) && UploadsFor(c, answers, s, n)))
  {
    hide Drained, Cleared, Todo, Applied, AppliedFor, Uploads, UploadsFor;
    DyingHoldAndFile(c, records, stream, answers, None, s, n);
    AllOpenRowsAreReached(c, stream, answers, L.ClearHold, s, n);
    AllOpenRowsAreReached(c, stream, answers, L.ApplyHold, s, n);
  }

  /* ---- released without evidence ---- */

  /** The supplier is not on hold and its file is missing. */
  predicate Bare(r: E.Records, s: string, n: int) { s !in r.onHold && (s, n) !in r.files }

  /** The drain order is meant to keep the ERP from showing a released supplier whose evidence is missing. After a drain
      it shows one exactly when the file was not there and no open upload of it is applied - because it failed, or
      because no row asks for it - while an open release is applied in a cleared case, or no hold stood or landed. */
  lemma ReleasedWithoutEvidence(c: Case, records: E.Records, stream: seq<Key>, answers: Key -> E.Answer,
                                s: string, n: int)
    requires Lists(stream, c.outbox)
    ensures Bare(Drained(c, records, stream, answers).records, s, n) <==>
              (s, n) !in records.files && !(Cleared(c) && UploadsFor(c, answers, s, n))
              && ((Cleared(c) && AppliedFor(c, answers, L.ClearHold, s))
                  || (s !in records.onHold && !AppliedFor(c, answers, L.ApplyHold, s)))
  {
    hide Drained, Cleared, AppliedFor, UploadsFor;
    HoldAndFileExactly(c, records, stream, answers, s, n);
  }

  /** And of a drain that dies on the way, with the commands it reached in place of the open ones: if it has lifted the
      hold, it had called every open upload before, so it leaves a released supplier bare only if a whole drain
      would. */
  lemma DyingReleaseWithoutEvidence(c: Case, records: E.Records, stream: seq<Key>, answers: Key -> E.Answer,
                                    death: Option<Death>, s: string, n: int)
    requires Lists(stream, c.outbox)
    ensures var reached := Reached(Todo(c.outbox, stream), death);
            Bare(DrainedUntil(c, records, stream, answers, death).records, s, n) <==>
              (s, n) !in records.files && !(Cleared(c) && Uploads(c.outbox, reached, answers, s, n))
              && ((Cleared(c) && Applied(c.outbox, reached, answers, L.ClearHold, s))
                  || (s !in records.onHold && !Applied(c.outbox, reached, answers, L.ApplyHold, s)))
    ensures Bare(DrainedUntil(c, records, stream, answers, death).records, s, n) && s in records.onHold ==>
              Bare(Drained(c, records, stream, answers).records, s, n)
  {
    hide Drained, DrainedUntil, Cleared, Todo, Applied, AppliedFor, Uploads, UploadsFor, Reached;
    DyingHoldAndFile(c, records, stream, answers, death, s, n);
    HoldAndFileExactly(c, records, stream, answers, s, n);
    AllOpenRowsAreReached(c, stream, answers, L.ClearHold, s, n);
    LiftedAfterUploading(c, stream, answers, death, s, n);
  }

  lemma LiftedAfterUploading(c: Case, stream: seq<Key>, answers: Key -> E.Answer, death: Option<Death>, s: string,
                             n: int)
    requires Lists(stream, c.outbox)
    ensures var todo := Todo(c.outbox, stream);
            var reached := Reached(todo, death);
            Applied(c.outbox, reached, answers, L.ClearHold, s) ==>
              Applied(c.outbox, todo, answers, L.ClearHold, s)
              && (Uploads(c.outbox, reached, answers, s, n) <==> UploadsFor(c, answers, s, n))
  {
    hide Todo, Sorted, Selected;
    var todo := Todo(c.outbox, stream);
    var reached := Reached(todo, death);
    var upload := Key(L.AttachEvidence, n);
    DrainsExactlyTheOpenRows(c.outbox, stream);
    assert forall k :: k in reached ==> k in todo;
    if Applied(c.outbox, reached, answers, L.ClearHold, s) && OpenFor(c, upload, s) {
      var k :| k in reached && k in c.outbox && k.action == L.ClearHold && c.outbox[k].supplier == s
        && answers(k).applied;
      ReleasesAreReachedLast(c.outbox, stream, death, k, upload);
    }
  }

  /** What the ledger tells beforehand. A drain can leave the supplier bare exactly when the file is missing and either
      no hold stands, or an open release meets a cleared case. A release that is applied then does so whatever else the
      ERP answers exactly when no open row asks for the upload. */
  lemma BareReleaseBeforehand(c: Case, records: E.Records, stream: seq<Key>, s: string, n: int)
    requires Lists(stream, c.outbox)
    ensures var releasable := Cleared(c) && exists k :: OpenFor(c, k, s) && k.action == L.ClearHold;
            ((exists answers :: Bare(Drained(c, records, stream, answers).records, s, n)) <==>
               (s, n) !in records.files && (s !in records.onHold || releasable))
            && (releasable && (s, n) !in records.files ==>
                  ((forall answers :: AppliedFor(c, answers, L.ClearHold, s) ==>
                      Bare(Drained(c, records, stream, answers).records, s, n)) <==>
                   !OpenFor(c, Key(L.AttachEvidence, n), s)))
  {
    hide Drained, Cleared, Bare;
    forall answers: Key -> E.Answer
      ensures Bare(Drained(c, records, stream, answers).records, s, n) <==>
                (s, n) !in records.files && !(Cleared(c) && UploadsFor(c, answers, s, n))
                && ((Cleared(c) && AppliedFor(c, answers, L.ClearHold, s))
                    || (s !in records.onHold && !AppliedFor(c, answers, L.ApplyHold, s)))
    {
      ReleasedWithoutEvidence(c, records, stream, answers, s, n);
    }
    var served := E.Answer(true, true, true, 200, true);
    var none: Key -> E.Answer := (k: Key) => served.(applied := false);
    assert !AppliedFor(c, none, L.ApplyHold, s) && !UploadsFor(c, none, s, n);
    if k :| OpenFor(c, k, s) && k.action == L.ClearHold {
      var lost: Key -> E.Answer := (k: Key) => served.(applied := k.action == L.ClearHold);
      var all: Key -> E.Answer := (k: Key) => served;
      assert lost(k).applied && AppliedFor(c, lost, L.ClearHold, s) && !UploadsFor(c, lost, s, n);
      assert all(k).applied && AppliedFor(c, all, L.ClearHold, s);
      assert UploadsFor(c, all, s, n) <==> OpenFor(c, Key(L.AttachEvidence, n), s);
    }
  }
}
