/** The command ledger: one outbox row per (action, cycle), claimed by the graph and settled by the executor
    (app/state/commands.py). */
module Commands {

  import opened Store
  import L = Lifecycle
  import Text

  const MAX_EXECUTION_ATTEMPTS := 5

  function ActionName(a: L.Action): string {
    match a
    case CreateSupplier => "create_supplier"
    case AttachEvidence => "attach_evidence"
    case RequestRenewal => "request_renewal"
    case ApplyHold => "apply_hold"
    case ClearHold => "clear_hold"
  }

  function CommandId(caseId: string, k: Key): string {
    caseId + ":" + ActionName(k.action) + ":" + "c" + Text.Decimal(k.cycle)
  }

  /** Acquired claims queue the command; a refused one reports what the ledger holds. */
  datatype CommandClaim = CommandClaim(acquired: bool, status: Status)

  predicate Settled(s: Status) { s == Done || s == Dead }

  function Claimed(outbox: map<Key, Row>, k: Key, supplier: string): map<Key, Row> {
    if k !in outbox then outbox[k := Row(Pending, 1, 0, supplier)]
    else if Settled(outbox[k].status) then outbox
    else outbox[k := outbox[k].(status := Pending, attempts := outbox[k].attempts + 1, supplier := supplier)]
  }

  function ClaimOutcome(outbox: map<Key, Row>, k: Key): CommandClaim {
    if k in outbox && Settled(outbox[k].status) then CommandClaim(false, outbox[k].status)
    else CommandClaim(true, Pending)
  }

  function Succeeded(outbox: map<Key, Row>, k: Key): map<Key, Row>
    requires k in outbox
  {
    outbox[k := outbox[k].(status := Done)]
  }

  function FailureStatus(row: Row): Status {
    if row.executionAttempts + 1 >= MAX_EXECUTION_ATTEMPTS then Dead else Failed
  }

  function FailedOnce(outbox: map<Key, Row>, k: Key): map<Key, Row>
    requires k in outbox
  {
    outbox[k := outbox[k].(status := FailureStatus(outbox[k]), executionAttempts := outbox[k].executionAttempts + 1)]
  }

  method ClaimCommand(db: Firestore, caseId: string, k: Key, supplier: string) returns (claim: CommandClaim)
    requires caseId in db.cases
    modifies db
    ensures var c := old(db.cases[caseId]);
            db.cases == old(db.cases)[caseId := c.(outbox := Claimed(c.outbox, k, supplier))]
            && claim == ClaimOutcome(c.outbox, k)
  {
    var c := db.cases[caseId];
    if k in c.outbox {
      var row := c.outbox[k];
      if row.status == Done || row.status == Dead {
        assert c == c.(outbox := c.outbox);
        assert db.cases == db.cases[caseId := c];
        return CommandClaim(false, row.status);
      }
      row := row.(status := Pending, attempts := row.attempts + 1, supplier := supplier);
      db.cases := db.cases[caseId := c.(outbox := c.outbox[k := row])];
    } else {
      db.cases := db.cases[caseId := c.(outbox := c.outbox[k := Row(Pending, 1, 0, supplier)])];
    }
    claim := CommandClaim(true, Pending);
  }

  method RecordSuccess(db: Firestore, caseId: string, k: Key)
    requires caseId in db.cases && k in db.cases[caseId].outbox
    modifies db
    ensures var c := old(db.cases[caseId]);
            db.cases == old(db.cases)[caseId := c.(outbox := Succeeded(c.outbox, k))]
  {
    var c := db.cases[caseId];
    db.cases := db.cases[caseId := c.(outbox := c.outbox[k := c.outbox[k].(status := Done)])];
  }

  method RecordFailure(db: Firestore, caseId: string, k: Key) returns (status: Status)
    requires caseId in db.cases && k in db.cases[caseId].outbox
    modifies db
    ensures var c := old(db.cases[caseId]);
            db.cases == old(db.cases)[caseId := c.(outbox := FailedOnce(c.outbox, k))]
            && status == FailureStatus(c.outbox[k])
  {
    var c := db.cases[caseId];
    var attempts := c.outbox[k].executionAttempts + 1;
    status := if attempts >= MAX_EXECUTION_ATTEMPTS then Dead else Failed;
    var row := c.outbox[k].(status := status, executionAttempts := attempts);
    db.cases := db.cases[caseId := c.(outbox := c.outbox[k := row])];
  }

  /* ---- identity ---- */

  /** Distinct commands have distinct identifiers, even across cases whose ids contain colons. */
  lemma CommandIdIsInjective(c1: string, k1: Key, c2: string, k2: Key)
    requires CommandId(c1, k1) == CommandId(c2, k2)
    ensures c1 == c2 && k1 == k2
  {
    hide Text.Decimal, ActionName;
    var n1, n2 := Text.Decimal(k1.cycle), Text.Decimal(k2.cycle);
    var a1, a2 := ActionName(k1.action), ActionName(k2.action);
    Text.DecimalIsInjective(k1.cycle, k2.cycle);
    Text.DecimalIsInjective(k2.cycle, k1.cycle);
    assert CommandId(c1, k1) == (c1 + ":" + a1) + ":" + ("c" + n1);
    assert CommandId(c2, k2) == (c2 + ":" + a2) + ":" + ("c" + n2);
    Text.LastColonSplits(c1 + ":" + a1, "c" + n1, c2 + ":" + a2, "c" + n2);
    assert n1 == ("c" + n1)[1..] && n2 == ("c" + n2)[1..];
    NamesHaveNoColon(k1.action);
    NamesHaveNoColon(k2.action);
    Text.LastColonSplits(c1, a1, c2, a2);
    NamesAreDistinct(k1.action, k2.action);
  }

  lemma NamesHaveNoColon(a: L.Action)
    ensures Text.NoColon(ActionName(a))
  {
  }

  lemma NamesAreDistinct(a: L.Action, b: L.Action)
    ensures ActionName(a) == ActionName(b) ==> a == b
  {
    if ActionName(a) == ActionName(b) {
      assert ActionName(a)[0] == ActionName(b)[0];
      assert ActionName(a)[1] == ActionName(b)[1];
      assert ActionName(a)[6] == ActionName(b)[6];
    }
  }

  /* ---- what every write keeps ---- */

  /** A row with the attempts used up is settled; one that may still be driven has attempts left. */
  ghost predicate Capped(outbox: map<Key, Row>) {
    forall k :: k in outbox && !Settled(outbox[k].status) ==> outbox[k].executionAttempts < MAX_EXECUTION_ATTEMPTS
  }

  lemma EveryWriteKeepsTheCap(outbox: map<Key, Row>, k: Key, supplier: string)
    requires Capped(outbox)
    ensures Capped(Claimed(outbox, k, supplier))
    ensures k in outbox ==> Capped(Succeeded(outbox, k)) && Capped(FailedOnce(outbox, k))
  {
  }

  /** Rows are parked only with their attempts used up. */
  ghost predicate ParkedLate(outbox: map<Key, Row>) {
    forall k :: k in outbox && outbox[k].status == Dead ==> outbox[k].executionAttempts >= MAX_EXECUTION_ATTEMPTS
  }

  lemma EveryWriteParksLate(outbox: map<Key, Row>, k: Key, supplier: string)
    requires ParkedLate(outbox)
    ensures ParkedLate(Claimed(outbox, k, supplier))
    ensures k in outbox ==> ParkedLate(Succeeded(outbox, k)) && ParkedLate(FailedOnce(outbox, k))
  {
  }

  /** A claim answers with the status its row then has, and that it was acquired exactly when it moved the row. */
  lemma ClaimsAnswerTheirRow(outbox: map<Key, Row>, k: Key, supplier: string)
    ensures var after := Claimed(outbox, k, supplier);
            k in after && ClaimOutcome(outbox, k).status == after[k].status
            && (ClaimOutcome(outbox, k).acquired <==> after != outbox)
  {
    if k in outbox && !Settled(outbox[k].status) {
      assert Claimed(outbox, k, supplier)[k].attempts != outbox[k].attempts;
    }
  }

  /** Claiming never revives a settled row and never changes how often it was tried. */
  lemma ClaimingNeverRevives(outbox: map<Key, Row>, k: Key, supplier: string, other: Key)
    requires other in outbox
    ensures other in Claimed(outbox, k, supplier)
    ensures Claimed(outbox, k, supplier)[other].executionAttempts == outbox[other].executionAttempts
    ensures Settled(outbox[other].status) ==> Claimed(outbox, k, supplier)[other] == outbox[other]
    ensures Claimed(outbox, k, supplier).Keys == outbox.Keys + {k}
  {
  }
}
