/** The ERP as a keyed store, and the five calls the executor makes on it (app/executor/frappe.py). */
module Erp {

  import L = Lifecycle

  /** Suppliers, suppliers on hold, certificate files by (supplier, cycle), and messages sent by supplier. */
  datatype Records = Records(suppliers: set<string>, onHold: set<string>, files: multiset<(string, int)>,
    mails: multiset<string>)

  /** What one call meets: whether its preliminary lookup is answered, whether the ERP applies the request,
      whether a readable response comes back, its status code, and whether the supplier it finds has an address. */
  datatype Answer = Answer(lookup: bool, applied: bool, delivered: bool, code: nat, addressed: bool)

  predicate Accepted(a: Answer) { a.delivered && a.code < 400 }

  predicate Duplicate(a: Answer) { a.delivered && (a.code == 409 || a.code == 417) }

  /** The call reaches its request: the lookup is answered and finds what the request needs. */
  predicate Requests(r: Records, act: L.Action, s: string, cycle: int, a: Answer) {
    match act
    case CreateSupplier => a.lookup
    case AttachEvidence => a.lookup && (s, cycle) !in r.files
    case RequestRenewal => a.lookup && s in r.suppliers && a.addressed
    case ApplyHold => true
    case ClearHold => true
  }

  /** Whether the call returns rather than raises. */
  predicate Ok(r: Records, act: L.Action, s: string, cycle: int, a: Answer) {
    if act == L.AttachEvidence && a.lookup && (s, cycle) in r.files then true
    else Requests(r, act, s, cycle, a) && (Accepted(a) || (act == L.CreateSupplier && Duplicate(a)))
  }

  /** The effect of one applied request. */
  function Apply(r: Records, act: L.Action, s: string, cycle: int): Records {
    match act
    case CreateSupplier => r.(suppliers := r.suppliers + {s})
    case AttachEvidence => r.(files := r.files + multiset{(s, cycle)})
    case RequestRenewal => r.(mails := r.mails + multiset{s})
    case ApplyHold => r.(onHold := r.onHold + {s})
    case ClearHold => r.(onHold := r.onHold - {s})
  }

  function After(r: Records, act: L.Action, s: string, cycle: int, a: Answer): Records {
    if Requests(r, act, s, cycle, a) && a.applied then Apply(r, act, s, cycle) else r
  }

  /** An ERP that accepts only what it applies, and calls a creation a duplicate only when it is one. */
  predicate Honest(r: Records, act: L.Action, s: string, a: Answer) {
    (a.code < 400 ==> a.applied)
    && (act == L.CreateSupplier && (a.code == 409 || a.code == 417) ==> s in r.suppliers)
  }

  class Frappe {
    var suppliers: set<string>
    var onHold: set<string>
    var files: multiset<(string, int)>
    var mails: multiset<string>

    function Data(): Records
      reads this
    {
      Records(suppliers, onHold, files, mails)
    }

    constructor ()
      ensures Data() == Records({}, {}, multiset{}, multiset{})
    {
      suppliers, onHold, files, mails := {}, {}, multiset{}, multiset{};
    }

    method CreateSupplierIfAbsent(s: string, a: Answer) returns (ok: bool)
      modifies this
      ensures Data() == After(old(Data()), L.CreateSupplier, s, 0, a)
      ensures ok == Ok(old(Data()), L.CreateSupplier, s, 0, a)
    {
      if !a.lookup { return false; }
      if a.applied { suppliers := suppliers + {s}; }
      if !a.delivered { return false; }
      if a.code == 409 || a.code == 417 { return true; }
      ok := a.code < 400;
    }

    method SetSupplierHold(s: string, a: Answer) returns (ok: bool)
      modifies this
      ensures Data() == After(old(Data()), L.ApplyHold, s, 0, a)
      ensures ok == Ok(old(Data()), L.ApplyHold, s, 0, a)
    {
      if a.applied { onHold := onHold + {s}; }
      ok := a.delivered && a.code < 400;
    }

    method ClearSupplierHold(s: string, a: Answer) returns (ok: bool)
      modifies this
      ensures Data() == After(old(Data()), L.ClearHold, s, 0, a)
      ensures ok == Ok(old(Data()), L.ClearHold, s, 0, a)
    {
      if a.applied { onHold := onHold - {s}; }
      ok := a.delivered && a.code < 400;
    }

    method SendSupplierMessage(s: string, a: Answer) returns (ok: bool)
      modifies this
      ensures Data() == After(old(Data()), L.RequestRenewal, s, 0, a)
      ensures ok == Ok(old(Data()), L.RequestRenewal, s, 0, a)
    {
      if !a.lookup || s !in suppliers || !a.addressed { return false; }
      if a.applied { mails := mails + multiset{s}; }
      ok := a.delivered && a.code < 400;
    }

    method AttachEvidence(s: string, cycle: int, a: Answer) returns (ok: bool)
      modifies this
      ensures Data() == After(old(Data()), L.AttachEvidence, s, cycle, a)
      ensures ok == Ok(old(Data()), L.AttachEvidence, s, cycle, a)
    {
      if !a.lookup { return false; }
      if (s, cycle) in files { return true; }
      if a.applied { files := files + multiset{(s, cycle)}; }
      ok := a.delivered && a.code < 400;
    }
  }

  /** Whether the record the action is for is in the ERP; a message leaves no keyed record. */
  predicate Shows(r: Records, act: L.Action, s: string, cycle: int) {
    match act
    case CreateSupplier => s in r.suppliers
    case AttachEvidence => (s, cycle) in r.files
    case RequestRenewal => s in r.mails
    case ApplyHold => s in r.onHold
    case ClearHold => s !in r.onHold
  }

  /** With an honest ERP, a call that returns has left its record behind. */
  lemma OkMeansRecorded(r: Records, act: L.Action, s: string, cycle: int, a: Answer)
    requires Honest(r, act, s, a) && Ok(r, act, s, cycle, a)
    ensures Shows(After(r, act, s, cycle, a), act, s, cycle)
  {
  }

  /** What one call adds to the records and takes from them, whoever and whichever cycle is asked after. */
  lemma RecordsMoveExactly(r: Records, act: L.Action, s: string, cycle: int, a: Answer, o: string, n: int)
    ensures var after, here := After(r, act, s, cycle, a), o == s && a.applied;
            (o in after.suppliers <==> o in r.suppliers || (act == L.CreateSupplier && here && a.lookup))
            && (o in after.onHold <==>
                  (act == L.ApplyHold && here) || (o in r.onHold && !(act == L.ClearHold && here)))
            && after.files[(o, n)] == r.files[(o, n)]
                 + (if act == L.AttachEvidence && here && n == cycle && a.lookup && (o, n) !in r.files then 1 else 0)
            && after.mails[o] == r.mails[o]
                 + (if act == L.RequestRenewal && here && a.lookup && a.addressed && o in r.suppliers then 1 else 0)
  {
  }

  /** A call fails exactly when its lookup does, when its answer is lost or an error - but for the two codes a creation
      takes for a duplicate, and a file that is there already -, or when a message finds nobody to send it to. */
  lemma CallsFailExactly(r: Records, act: L.Action, s: string, cycle: int, a: Answer)
    ensures var refused := !a.delivered || (a.code >= 400 && !(act == L.CreateSupplier && a.code in {409, 417}));
            var there := act == L.AttachEvidence && (s, cycle) in r.files;
            !Ok(r, act, s, cycle, a) <==>
              (act !in {L.ApplyHold, L.ClearHold} && !a.lookup) || (refused && !there)
              || (act == L.RequestRenewal && (s !in r.suppliers || !a.addressed))
  {
  }

  /** Creation takes 409 and 417 for a duplicate. It reports success without a supplier exactly when such a
      code, or an acceptance, is answered for a supplier that is neither there nor created by the request. */
  lemma CreationTrustsTheDuplicateCode(r: Records, s: string, a: Answer)
    ensures Ok(r, L.CreateSupplier, s, 0, a) && s !in After(r, L.CreateSupplier, s, 0, a).suppliers <==>
              a.lookup && a.delivered && !a.applied && s !in r.suppliers
                && (a.code < 400 || a.code == 409 || a.code == 417)
  {
  }

  /** Repeating any call but the message changes nothing once its effect has landed. */
  lemma RepeatsAreHarmless(r: Records, act: L.Action, s: string, cycle: int, a: Answer)
    requires act != L.RequestRenewal && Shows(r, act, s, cycle)
    ensures After(r, act, s, cycle, a) == r
  {
    if act == L.CreateSupplier { assert r.suppliers + {s} == r.suppliers; }
    if act == L.ApplyHold { assert r.onHold + {s} == r.onHold; }
    if act == L.ClearHold { assert r.onHold - {s} == r.onHold; }
  }
}
