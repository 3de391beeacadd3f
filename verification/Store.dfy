/** The documents of one mission and the database that holds them. A case document carries its inbox, outbox
    and approval subcollections as maps; every write below replaces documents atomically. */
module Store {

  import opened Basics
  import L = Lifecycle
  import R = Risk

  datatype Phase = Processing | AwaitingApproval | Committed | NoAction | Quarantined

  /** The stored policy block: absent, a verdict of the gate, or something else that may still name a band. */
  datatype PolicyBlock = NoPolicy | Unreadable(named: Option<Band>) | Stored(verdict: R.Verdict)

  datatype Status = Pending | Done | Failed | Dead

  datatype Key = Key(action: L.Action, cycle: int)

  /** An outbox row. Of the payload only the supplier name is kept. */
  datatype Row = Row(status: Status, attempts: nat, executionAttempts: nat, supplier: string)

  datatype InboxRow = InboxRow(version: nat, dispatched: bool)

  datatype Choice = Approve | Reject

  datatype Approval = Approval(id: string, decision: Choice, actor: string, version: nat)

  /** `refused` holds the commands last refused by department. */
  datatype Case = Case(
    version: nat, phase: Phase, supplier: string, policy: PolicyBlock, approval: Option<Approval>,
    state: L.State, cycle: int, certificate: Option<L.Certificate>, refused: seq<Key>,
    inbox: map<string, InboxRow>, outbox: map<Key, Row>, approvals: map<string, Approval>)

  /** What reading a case yields before any document exists. */
  function NoCase(supplier: string): Case {
    Case(0, Processing, supplier, NoPolicy, None, L.Onboarding, 0, None, [], map[], map[], map[])
  }

  function GateBand(c: Case): Option<Band> {
    match c.policy
    case NoPolicy => None
    case Unreadable(named) => named
    case Stored(verdict) => Some(verdict.band)
  }

  function LifecycleOf(c: Case): L.CaseState {
    L.CaseState(c.supplier, c.state, c.cycle, c.certificate)
  }

  class Firestore {
    var cases: map<string, Case>

    constructor ()
      ensures cases == map[]
    {
      cases := map[];
    }
  }
}
