/** The station-keeping state machine of one supplier: which event moves it, which commands a move
    implies, and what every run of it conserves (app/lifecycle.py). */
module Lifecycle {

  import opened Basics
  import opened Dates
  import J = Json

  datatype State = Onboarding | Active | RenewalRequested | Held

  datatype Action = CreateSupplier | AttachEvidence | RequestRenewal | ApplyHold | ClearHold

  /** Commands the executor's band guard may never withhold. */
  predicate Restrictive(a: Action) { a == ApplyHold }

  datatype Command = Command(action: Action, supplier: string)

  datatype Certificate = Certificate(expiryDate: string, evidenceVersion: int, checksum: J.Json,
    extractedAt: CalendarDate)

  /** The blocks of the case document that `Decide` reads. */
  datatype CaseState = CaseState(supplier: string, state: State, cycle: int, certificate: Option<Certificate>)

  datatype EventType = NewSupplierPacket | RenewalDue | EvidenceOverdue | CertificateReceived | UnknownType

  /** `on` is the effective date after parsing; None when it is missing or unreadable. */
  datatype Event = Event(kind: EventType, supplier: string, on: Option<CalendarDate>)

  datatype Timing = Timing(renewalWindowDays: nat, overdueGraceDays: nat)

  datatype Reason =
    | BadEffectiveDate | AlreadyOnboarded | AwaitingEvidence | Onboarded
    | AlreadyRequested | NotApplicable | NoCertificate | NotDue | RenewalRequestedReason
    | AlreadyHeld | Superseded | HeldOverdue
    | NoExpiryFound | StaleDocument | Renewed | UnknownEventType

  datatype Decision = Decision(state: State, cycle: int, reason: Reason, commands: seq<Command>,
    certificate: Option<Certificate>)

  /** `Raised` is an exception escaping the decision. */
  datatype Outcome = Decided(decision: Decision) | Raised

  const EXPIRY_FIELD := "certificate_expiry"

  /** The first field that carries the expiry name decides, readable or not. */
  function FirstExpiry(fields: seq<J.Json>): Option<CalendarDate> {
    if fields == [] then None
    else if fields[0].Object? && fields[0].Get("name") == J.Str(EXPIRY_FIELD) then
      var value := fields[0].Get("value");
      if value.Str? then Parse(value.s) else None
    else FirstExpiry(fields[1..])
  }

  /** The field carries the expiry name. */
  predicate NamesExpiry(field: J.Json) { field.Object? && field.Get("name") == J.Str("certificate_expiry") }

  /** No named field, no expiry; otherwise the first named one gives it, or gives none when its value is no text that
      is a date, whatever the later ones hold. */
  lemma {:induction false} FirstNamedDecides(fields: seq<J.Json>, i: nat)
    requires i <= |fields| && forall j :: 0 <= j < i ==> !NamesExpiry(fields[j])
    requires i < |fields| ==> NamesExpiry(fields[i])
    ensures FirstExpiry(fields).Some? <==>
              i < |fields| && fields[i].Get("value").Str? && Parse(fields[i].Get("value").s).Some?
    ensures FirstExpiry(fields).Some? ==> FirstExpiry(fields) == Parse(fields[i].Get("value").s)
  {
    hide Parse;
    if i > 0 {
      assert !NamesExpiry(fields[0]);
      FirstNamedDecides(fields[1..], i - 1);
    }
  }

  function ExpiryFromEvidence(evidence: Option<J.Json>): Option<CalendarDate> {
    if evidence.None? || !evidence.value.Get("fields").List? then None
    else FirstExpiry(evidence.value.Get("fields").items)
  }

  /** Truthy fields that cannot be looped over; a text or a dict can be, and holds no field. */
  predicate Unlistable(evidence: Option<J.Json>) {
    evidence.Some?
    && var fields := evidence.value.Get("fields"); fields.Truthy() && (fields.Bool? || fields.Int? || fields.Float?)
  }

  function NewCertificate(expiry: CalendarDate, version: int, evidence: Option<J.Json>, on: CalendarDate): Certificate {
    Certificate(Print(expiry), version, if evidence.Some? then evidence.value.Get("document_checksum") else J.Null, on)
  }

  function NoOp(s: CaseState, reason: Reason): Outcome {
    Decided(Decision(s.state, s.cycle, reason, [], None))
  }

  function Decide(s: CaseState, e: Event, evidence: Option<J.Json>, t: Timing): Outcome {
    if e.on.None? then NoOp(s, BadEffectiveDate)
    else
      var supplier := if s.supplier != "" then s.supplier else e.supplier;
      match e.kind
      case NewSupplierPacket => OnPacket(s, supplier, e.on.value, evidence)
      case RenewalDue => OnRenewalDue(s, supplier, e.on.value, t)
      case EvidenceOverdue => OnOverdue(s, supplier, e.on.value, t)
      case CertificateReceived => OnCertificate(s, supplier, e.on.value, evidence)
      case UnknownType => NoOp(s, UnknownEventType)
  }

  function StoredExpiry(s: CaseState): Option<CalendarDate> {
    if s.certificate.Some? then Parse(s.certificate.value.expiryDate) else None
  }

  function OnPacket(s: CaseState, supplier: string, on: CalendarDate, evidence: Option<J.Json>): Outcome {
    if s.state != Onboarding then NoOp(s, AlreadyOnboarded)
    else if Unlistable(evidence) then Raised
    else
      var create := Command(CreateSupplier, supplier);
      var expiry := ExpiryFromEvidence(evidence);
      if expiry.None? then Decided(Decision(Onboarding, 1, AwaitingEvidence, [create], None))
      else Decided(Decision(Active, 1, Onboarded, [create, Command(AttachEvidence, supplier)],
                            Some(NewCertificate(expiry.value, 1, evidence, on))))
  }

  function OnRenewalDue(s: CaseState, supplier: string, on: CalendarDate, t: Timing): Outcome {
    if s.state == RenewalRequested then NoOp(s, AlreadyRequested)
    else if s.state != Active then NoOp(s, NotApplicable)
    else
      var expiry := StoredExpiry(s);
      if expiry.None? then NoOp(s, NoCertificate)
      else
        var opens := Ordinal(expiry.value) - t.renewalWindowDays;
        if opens < 1 then Raised
        else if Ordinal(on) < opens then NoOp(s, NotDue)
        else
          var request := Command(RequestRenewal, supplier);
          Decided(Decision(RenewalRequested, s.cycle, RenewalRequestedReason, [request], None))
  }

  function OnOverdue(s: CaseState, supplier: string, on: CalendarDate, t: Timing): Outcome {
    if s.state == Held then NoOp(s, AlreadyHeld)
    else if s.state == Active then NoOp(s, Superseded)
    else if s.state != RenewalRequested then NoOp(s, NotApplicable)
    else
      var expiry := StoredExpiry(s);
      if expiry.None? then NoOp(s, NoCertificate)
      else
        var closes := Ordinal(expiry.value) + t.overdueGraceDays;
        if closes > MAX_ORDINAL then Raised
        else if Ordinal(on) <= closes then NoOp(s, NotDue)
        else Decided(Decision(Held, s.cycle, HeldOverdue, [Command(ApplyHold, supplier)], None))
  }

  function OnCertificate(s: CaseState, supplier: string, on: CalendarDate, evidence: Option<J.Json>): Outcome {
    var offered := ExpiryFromEvidence(evidence);
    var expiry := StoredExpiry(s);
    if Unlistable(evidence) then Raised
    else if offered.None? then NoOp(s, NoExpiryFound)
    else if expiry.Some? && Ordinal(offered.value) <= Ordinal(expiry.value) then NoOp(s, StaleDocument)
    else
      var attach := Command(AttachEvidence, supplier);
      var version := if s.certificate.Some? then s.certificate.value.evidenceVersion else 0;
      Decided(Decision(Active, s.cycle + 1, Renewed,
                       if s.state == Held then [attach, Command(ClearHold, supplier)] else [attach],
                       Some(NewCertificate(offered.value, version + 1, evidence, on))))
  }

  /* ---- totality ---- */

  /** The code documents the decision as total; it raises exactly when the window of a due renewal opens
      before 0001-01-01, when the grace of an overdue one closes after 9999-12-31, or when evidence it looks
      at has fields that are no list. */
  lemma DecisionRaisesExactly(s: CaseState, e: Event, evidence: Option<J.Json>, t: Timing)
    ensures Decide(s, e, evidence, t).Raised? <==>
              e.on.Some?
              && ((e.kind == RenewalDue && s.state == Active && StoredExpiry(s).Some?
                   && Ordinal(StoredExpiry(s).value) <= t.renewalWindowDays)
                  || (e.kind == EvidenceOverdue && s.state == RenewalRequested && StoredExpiry(s).Some?
                      && Ordinal(StoredExpiry(s).value) + t.overdueGraceDays > MAX_ORDINAL)
                  || (e.kind == NewSupplierPacket && s.state == Onboarding && Unlistable(evidence))
                  || (e.kind == CertificateReceived && Unlistable(evidence)))
  {
  }

  lemma DecideIsNotTotal(d: CalendarDate) returns (s: CaseState, e: Event, t: Timing)
    requires d == Date(1, 1, 1)
    ensures Decide(s, e, None, t) == Raised
  {
    hide Parse, Print, Ordinal;
    PrintThenParse(d);
    FirstDay();
    s := CaseState("acme", Active, 1, Some(Certificate(Print(d), 1, J.Null, d)));
    e := Event(RenewalDue, "acme", Some(d));
    t := Timing(35, 0);
  }

  /* ---- when what happens ---- */

  /** The event is dated more than so many days after the stored expiry. */
  predicate AfterExpiry(s: CaseState, e: Event, days: int) {
    e.on.Some? && StoredExpiry(s).Some? && Ordinal(e.on.value) > Ordinal(StoredExpiry(s).value) + days
  }

  /** The event is dated no earlier than so many days before the stored expiry. */
  predicate WithinWindow(s: CaseState, e: Event, days: int) {
    e.on.Some? && StoredExpiry(s).Some? && Ordinal(e.on.value) + days >= Ordinal(StoredExpiry(s).value)
  }

  /** The evidence offers an expiry later than the stored one, if there is one. */
  predicate OffersLater(s: CaseState, evidence: Option<J.Json>) {
    ExpiryFromEvidence(evidence).Some?
    && (StoredExpiry(s).Some? ==> Ordinal(ExpiryFromEvidence(evidence).value) > Ordinal(StoredExpiry(s).value))
  }

  /** A decision that does something, by the state it leads to, exactly when: a hold is applied when a renewal was
      requested and the event is dated later than the grace after the stored expiry; a renewal is requested of an
      active case from the opening of the window on; a certificate renews when it offers a later expiry; and a packet
      opens a case, at once with evidence and waiting without. Everything else leaves state and cycle alone. */
  lemma DecisionsExactly(s: CaseState, e: Event, evidence: Option<J.Json>, t: Timing)
    requires Decide(s, e, evidence, t).Decided?
    ensures var d := Decide(s, e, evidence, t).decision;
            var held :=
              e.kind == EvidenceOverdue && s.state == RenewalRequested && AfterExpiry(s, e, t.overdueGraceDays);
            var requested := e.kind == RenewalDue && s.state == Active && WithinWindow(s, e, t.renewalWindowDays);
            var renewed := e.kind == CertificateReceived && e.on.Some? && OffersLater(s, evidence);
            var opening := e.kind == NewSupplierPacket && e.on.Some? && s.state == Onboarding;
            (d.reason == HeldOverdue <==> held) && (held ==> d.state == Held && d.cycle == s.cycle)
            && (d.reason == RenewalRequestedReason <==> requested)
            && (requested ==> d.state == RenewalRequested && d.cycle == s.cycle)
            && (d.reason == Renewed <==> renewed) && (renewed ==> d.state == Active && d.cycle == s.cycle + 1)
            && (d.reason == Onboarded <==> opening && ExpiryFromEvidence(evidence).Some?)
            && (d.reason == AwaitingEvidence <==> opening && ExpiryFromEvidence(evidence).None?)
            && (opening ==>
                  d.cycle == 1 && d.state == if ExpiryFromEvidence(evidence).Some? then Active else Onboarding)
            && (!held && !requested && !renewed && !opening ==>
                  d.state == s.state && d.cycle == s.cycle && d.commands == [] && d.certificate.None?)
  {
    hide Ordinal, Parse, Print, FirstExpiry, Unlistable, NewCertificate;
  }

  /** The certificate a decision stores: exactly with a renewal or an opening on evidence, with the offered expiry, the
      next version, the document's checksum and the day of the event. */
  lemma CertificatesExactly(s: CaseState, e: Event, evidence: Option<J.Json>, t: Timing)
    requires Decide(s, e, evidence, t).Decided?
    ensures var d := Decide(s, e, evidence, t).decision;
            (d.certificate.Some? <==> d.reason == Onboarded || d.reason == Renewed)
            && (d.certificate.Some? ==>
                  ExpiryFromEvidence(evidence).Some? && evidence.Some? && e.on.Some?
                  && d.certificate.value.expiryDate == Print(ExpiryFromEvidence(evidence).value)
                  && d.certificate.value.evidenceVersion ==
                       (if d.reason == Renewed && s.certificate.Some?
                        then s.certificate.value.evidenceVersion + 1 else 1)
                  && d.certificate.value.checksum == evidence.value.Get("document_checksum")
                  && d.certificate.value.extractedAt == e.on.value)
  {
    hide Ordinal, Parse, Print, FirstExpiry, Unlistable;
  }

  /** Why nothing happened: the reason a refusal gives holds of the case and the event, and tells them apart. */
  lemma RefusalsExactly(s: CaseState, e: Event, evidence: Option<J.Json>, t: Timing)
    requires Decide(s, e, evidence, t).Decided?
    ensures var reason := Decide(s, e, evidence, t).decision.reason;
            var dated := e.on.Some?;
            (reason == BadEffectiveDate <==> !dated)
            && (reason == UnknownEventType <==> dated && e.kind == UnknownType)
            && (reason == AlreadyOnboarded <==> dated && e.kind == NewSupplierPacket && s.state != Onboarding)
            && (reason == AlreadyRequested <==> dated && e.kind == RenewalDue && s.state == RenewalRequested)
            && (reason == AlreadyHeld <==> dated && e.kind == EvidenceOverdue && s.state == Held)
            && (reason == Superseded <==> dated && e.kind == EvidenceOverdue && s.state == Active)
            && (reason == NotApplicable <==>
                  dated && ((e.kind == RenewalDue && (s.state == Onboarding || s.state == Held))
                            || (e.kind == EvidenceOverdue && s.state == Onboarding)))
            && (reason == NoCertificate <==>
                  dated && StoredExpiry(s).None?
                  && ((e.kind == RenewalDue && s.state == Active)
                      || (e.kind == EvidenceOverdue && s.state == RenewalRequested)))
            && (reason == NotDue <==>
                  dated && StoredExpiry(s).Some?
                  && ((e.kind == RenewalDue && s.state == Active && !WithinWindow(s, e, t.renewalWindowDays))
                      || (e.kind == EvidenceOverdue && s.state == RenewalRequested
                          && !AfterExpiry(s, e, t.overdueGraceDays))))
            && (reason == NoExpiryFound <==>
                  dated && e.kind == CertificateReceived && ExpiryFromEvidence(evidence).None?)
            && (reason == StaleDocument <==>
                  dated && e.kind == CertificateReceived && ExpiryFromEvidence(evidence).Some?
                  && !OffersLater(s, evidence))
  {
    hide Ordinal, Parse, Print, FirstExpiry, Unlistable, NewCertificate;
  }

  /* ---- runs ---- */

  /** One event as a run sees it: what arrived, what was extracted, and the timing then in force. */
  datatype Tick = Tick(event: Event, evidence: Option<J.Json>, timing: Timing)

  function Fresh(supplier: string): CaseState {
    CaseState(supplier, Onboarding, 0, None)
  }

  /** What the graph stores after a decision; a raised decision stores nothing. */
  function Stored(s: CaseState, o: Outcome): CaseState {
    match o
    case Raised => s
    case Decided(d) => s.(state := d.state, cycle := d.cycle,
                          certificate := if d.certificate.Some? then d.certificate else s.certificate)
  }

  function Decision1(s: CaseState, tick: Tick): Outcome {
    Decide(s, tick.event, tick.evidence, tick.timing)
  }

  function Advance(s: CaseState, tick: Tick): CaseState {
    Stored(s, Decision1(s, tick))
  }

  function Emits(s: CaseState, tick: Tick, a: Action, cycle: int): bool {
    var o := Decision1(s, tick);
    o.Decided? && o.decision.cycle == cycle && exists c :: c in o.decision.commands && c.action == a
  }

  function Run(s: CaseState, ticks: seq<Tick>): CaseState
  {
    if ticks == [] then s else Advance(Run(s, ticks[..|ticks| - 1]), ticks[|ticks| - 1])
  }

  /** How often a run emits an action. */
  function Count(s: CaseState, ticks: seq<Tick>, a: Action): nat {
    if ticks == [] then 0
    else
      var before := ticks[..|ticks| - 1];
      var here := Run(s, before);
      Count(s, before, a)
      + if Emits(here, ticks[|ticks| - 1], a, Advance(here, ticks[|ticks| - 1]).cycle) then 1 else 0
  }

  predicate WellKept(s: CaseState) {
    (s.certificate.None? <==> s.state == Onboarding)
    && (s.state == Onboarding ==> 0 <= s.cycle <= 1)
    && (s.certificate.Some? ==>
          StoredExpiry(s).Some? && s.certificate.value.evidenceVersion >= 1
          && 0 <= s.cycle - s.certificate.value.evidenceVersion <= 1)
  }

  function HoldBalance(s: State): int { if s == Held then 1 else 0 }

  /** What one event keeps: a certificate exists exactly from onboarding on and strictly improves, the
      version grows with each accepted one and keeps its distance from the cycle, the cycle never falls,
      and a hold is emitted exactly on entering `Held` and cleared exactly on leaving it. */
  lemma StepKeeps(s: CaseState, tick: Tick)
    requires WellKept(s)
    ensures var s' := Advance(s, tick);
            WellKept(s') && s'.supplier == s.supplier && s.cycle <= s'.cycle
            && (s.state != Onboarding ==> s'.state != Onboarding)
            && (s.certificate.Some? ==>
                  s'.cycle - s'.certificate.value.evidenceVersion == s.cycle - s.certificate.value.evidenceVersion)
            && (s'.certificate != s.certificate ==>
                  s'.certificate.Some? && StoredExpiry(s').Some?
                  && (s.certificate.None? ==> s'.certificate.value.evidenceVersion == 1)
                  && (s.certificate.Some? ==>
                        s'.certificate.value.evidenceVersion == s.certificate.value.evidenceVersion + 1
                        && Ordinal(StoredExpiry(s).value) < Ordinal(StoredExpiry(s').value)))
            && (Emits(s, tick, ApplyHold, s'.cycle) <==> s.state != Held && s'.state == Held)
            && (Emits(s, tick, ClearHold, s'.cycle) <==> s.state == Held && s'.state != Held)
  {
    hide WellKept, Advance, Emits, StoredExpiry, Ordinal;
    StepImproves(s, tick);
    StepBalances(s, tick);
  }

  lemma StepImproves(s: CaseState, tick: Tick)
    requires WellKept(s)
    ensures var s' := Advance(s, tick);
            WellKept(s') && s'.supplier == s.supplier && s.cycle <= s'.cycle
            && (s.state != Onboarding ==> s'.state != Onboarding)
            && (s.certificate.Some? ==>
                  s'.certificate.Some?
                  && s'.cycle - s'.certificate.value.evidenceVersion == s.cycle - s.certificate.value.evidenceVersion)
            && (s'.certificate != s.certificate ==>
                  s'.certificate.Some? && StoredExpiry(s').Some?
                  && (s.certificate.None? ==> s'.certificate.value.evidenceVersion == 1)
                  && (s.certificate.Some? ==>
                        StoredExpiry(s).Some?
                        && s'.certificate.value.evidenceVersion == s.certificate.value.evidenceVersion + 1
                        && Ordinal(StoredExpiry(s).value) < Ordinal(StoredExpiry(s').value)))
  {
    hide Ordinal, Parse, Print, ExpiryFromEvidence, Unlistable;
    var o := Decision1(s, tick);
    if o.Decided? && o.decision.certificate.Some? {
      PrintThenParse(ExpiryFromEvidence(tick.evidence).value);
    }
  }

  lemma StepBalances(s: CaseState, tick: Tick)
    requires WellKept(s)
    ensures var s' := Advance(s, tick);
            (Emits(s, tick, ApplyHold, s'.cycle) <==> s.state != Held && s'.state == Held)
            && (Emits(s, tick, ClearHold, s'.cycle) <==> s.state == Held && s'.state != Held)
  {
    hide Ordinal, Parse, NewCertificate, ExpiryFromEvidence, StoredExpiry, Unlistable;
    CommandsOf(s, tick, ApplyHold);
    CommandsOf(s, tick, ClearHold);
  }

  lemma OneOfTwo(cs: seq<Command>, a: Action)
    requires |cs| <= 2
    ensures (exists c :: c in cs && c.action == a) <==>
              (|cs| > 0 && cs[0].action == a) || (|cs| > 1 && cs[1].action == a)
  {
    if |cs| > 0 { assert cs[0] in cs; }
    if |cs| > 1 { assert cs[1] in cs; }
  }

  /** The command list of a decision, spelled out by action. */
  lemma CommandsOf(s: CaseState, tick: Tick, a: Action)
    ensures var o := Decision1(s, tick);
            o.Decided? ==>
              ((exists c :: c in o.decision.commands && c.action == a) <==>
               match a
               case CreateSupplier => o.decision.reason == AwaitingEvidence || o.decision.reason == Onboarded
               case AttachEvidence => o.decision.reason == Onboarded || o.decision.reason == Renewed
               case RequestRenewal => o.decision.reason == RenewalRequestedReason
               case ApplyHold => o.decision.reason == HeldOverdue
               case ClearHold => o.decision.reason == Renewed && s.state == Held)
  {
    hide Ordinal, ExpiryFromEvidence, StoredExpiry, NewCertificate;
    var o := Decision1(s, tick);
    if o.Decided? {
      assert |o.decision.commands| <= 2;
      OneOfTwo(o.decision.commands, a);
    }
  }

  /** Every command a decision names is for the case's supplier. */
  lemma CommandsNameTheSupplier(s: CaseState, tick: Tick)
    requires Decision1(s, tick).Decided? && s.supplier != ""
    ensures forall c :: c in Decision1(s, tick).decision.commands ==> c.supplier == s.supplier
  {
    hide Ordinal, Parse, Print, FirstExpiry;
  }

  /** Conservation over any events in any date order, under timings that may change between them. */
  lemma {:induction false} Conservation(supplier: string, ticks: seq<Tick>)
    ensures var s := Run(Fresh(supplier), ticks);
            WellKept(s)
            && Count(Fresh(supplier), ticks, ApplyHold) - Count(Fresh(supplier), ticks, ClearHold)
               == HoldBalance(s.state)
  {
    if ticks != [] {
      var before, last := ticks[..|ticks| - 1], ticks[|ticks| - 1];
      Conservation(supplier, before);
      StepKeeps(Run(Fresh(supplier), before), last);
    }
  }

  /** A stored certificate is always readable past onboarding, so no run ever answers `NoCertificate`. */
  lemma NoCertificateIsUnreachable(supplier: string, ticks: seq<Tick>, tick: Tick)
    ensures var o := Decision1(Run(Fresh(supplier), ticks), tick);
            o.Decided? ==> o.decision.reason != NoCertificate
  {
    hide Ordinal, Parse, ExpiryFromEvidence, NewCertificate, Run;
    Conservation(supplier, ticks);
  }

  /* ---- command identity ---- */

  /** The state has moved past the point where (a, cycle) could be emitted. */
  predicate Spent(s: CaseState, a: Action, cycle: int) {
    s.state != Onboarding
    && match a
       case CreateSupplier => true
       case AttachEvidence => cycle <= s.cycle
       case ClearHold => cycle <= s.cycle
       case RequestRenewal => cycle < s.cycle || (cycle == s.cycle && s.state != Active)
       case ApplyHold => cycle < s.cycle || (cycle == s.cycle && s.state == Held)
  }

  lemma EmissionSpends(s: CaseState, tick: Tick, a: Action, cycle: int)
    requires WellKept(s) && a != CreateSupplier && Emits(s, tick, a, cycle)
    ensures Spent(Advance(s, tick), a, cycle)
  {
    hide Ordinal, ExpiryFromEvidence, StoredExpiry, NewCertificate;
    CommandsOf(s, tick, a);
  }

  lemma SpentStays(s: CaseState, tick: Tick, a: Action, cycle: int)
    requires WellKept(s) && Spent(s, a, cycle)
    ensures Spent(Advance(s, tick), a, cycle)
    ensures !Emits(s, tick, a, cycle)
  {
    hide Ordinal, ExpiryFromEvidence, StoredExpiry, NewCertificate;
    CommandsOf(s, tick, a);
  }

  lemma {:induction false} SpentThroughout(supplier: string, ticks: seq<Tick>, i: nat, j: nat, a: Action, cycle: int)
    requires i < j <= |ticks| && a != CreateSupplier
    requires Emits(Run(Fresh(supplier), ticks[..i]), ticks[i], a, cycle)
    ensures Spent(Run(Fresh(supplier), ticks[..j]), a, cycle)
    decreases j
  {
    hide Decision1, Advance, Emits, Spent, WellKept, Count;
    Conservation(supplier, ticks[..j - 1]);
    assert ticks[..j][..j - 1] == ticks[..j - 1];
    if j == i + 1 {
      EmissionSpends(Run(Fresh(supplier), ticks[..i]), ticks[i], a, cycle);
    } else {
      SpentThroughout(supplier, ticks, i, j - 1, a, cycle);
      SpentStays(Run(Fresh(supplier), ticks[..j - 1]), ticks[j - 1], a, cycle);
    }
  }

  /** Along any run, an (action, cycle) other than the creation of the supplier is emitted at most once,
      so a ledger that refuses a finished command never hides later work. */
  lemma EmittedOnce(supplier: string, ticks: seq<Tick>, i: nat, j: nat, a: Action, cycle: int)
    requires i < j < |ticks| && a != CreateSupplier
    requires Emits(Run(Fresh(supplier), ticks[..i]), ticks[i], a, cycle)
    ensures !Emits(Run(Fresh(supplier), ticks[..j]), ticks[j], a, cycle)
  {
    hide Decision1, Advance, Emits, Spent, WellKept, Count;
    SpentThroughout(supplier, ticks, i, j, a, cycle);
    Conservation(supplier, ticks[..j]);
    SpentStays(Run(Fresh(supplier), ticks[..j]), ticks[j], a, cycle);
  }

  /** Creating the supplier is the exception: it is only ever emitted while onboarding, at cycle 1, and two
      packets without a certificate emit it twice. */
  lemma CreationRepeats(s: CaseState, tick: Tick, cycle: int)
    requires Emits(s, tick, CreateSupplier, cycle)
    ensures s.state == Onboarding && cycle == 1
    ensures Advance(s, tick).state == Onboarding ==> Emits(Advance(s, tick), tick, CreateSupplier, cycle)
  {
    hide Ordinal, StoredExpiry, NewCertificate, FirstExpiry;
    CommandsOf(s, tick, CreateSupplier);
    CommandsOf(Advance(s, tick), tick, CreateSupplier);
  }

  /* ---- replaying one event ---- */

  /** Deciding the same event again after its outcome was stored changes neither state, cycle nor certificate,
      and names no commands, unless it is a packet still awaiting evidence, which names its one command again. */
  lemma ReplayIsStable(s: CaseState, tick: Tick)
    requires WellKept(s) && Decision1(s, tick).Decided?
    ensures var s' := Advance(s, tick);
            var again := Decision1(s', tick);
            again.Decided?
            && Stored(s', again) == s'
            && (again.decision.commands == []
                || (again.decision.commands == Decision1(s, tick).decision.commands
                    && again.decision.cycle == Decision1(s, tick).decision.cycle))
            && (again.decision.commands != [] <==> Decision1(s, tick).decision.reason == AwaitingEvidence)
  {
    hide OnPacket, OnRenewalDue, OnOverdue, OnCertificate, WellKept;
    if tick.event.on.Some? {
      var on := tick.event.on.value;
      var supplier := if s.supplier != "" then s.supplier else tick.event.supplier;
      PacketAgain(s, supplier, on, tick.evidence);
      ClockAgain(s, supplier, on, tick.timing);
      CertificateAgain(s, supplier, on, tick.evidence);
    }
  }

  /** `again` adds nothing to what `o` stored. */
  ghost predicate Stable(s: CaseState, o: Outcome, again: Outcome) {
    o.Decided? ==>
      again.Decided? && Stored(Stored(s, o), again) == Stored(s, o)
      && (if o.decision.reason == AwaitingEvidence
          then again.decision.commands == o.decision.commands != [] && again.decision.cycle == o.decision.cycle
          else again.decision.commands == [])
  }

  lemma PacketAgain(s: CaseState, supplier: string, on: CalendarDate, evidence: Option<J.Json>)
    requires WellKept(s)
    ensures var o := OnPacket(s, supplier, on, evidence); Stable(s, o, OnPacket(Stored(s, o), supplier, on, evidence))
  {
    hide ExpiryFromEvidence, NewCertificate;
  }

  lemma ClockAgain(s: CaseState, supplier: string, on: CalendarDate, t: Timing)
    requires WellKept(s)
    ensures var o := OnRenewalDue(s, supplier, on, t); Stable(s, o, OnRenewalDue(Stored(s, o), supplier, on, t))
    ensures var o := OnOverdue(s, supplier, on, t); Stable(s, o, OnOverdue(Stored(s, o), supplier, on, t))
  {
    hide Ordinal, Parse;
  }

  lemma CertificateAgain(s: CaseState, supplier: string, on: CalendarDate, evidence: Option<J.Json>)
    requires WellKept(s)
    ensures var o := OnCertificate(s, supplier, on, evidence);
            Stable(s, o, OnCertificate(Stored(s, o), supplier, on, evidence))
  {
    hide Ordinal, Parse, Print, ExpiryFromEvidence;
    var offered := ExpiryFromEvidence(evidence);
    if offered.Some? {
      PrintThenParse(offered.value);
    }
  }

  lemma RenewalsAreCertificates(s: CaseState, tick: Tick)
    requires Decision1(s, tick).Decided? && Decision1(s, tick).decision.reason == Renewed
    ensures tick.event.kind == CertificateReceived && tick.event.on.Some?
  {
    hide ExpiryFromEvidence, StoredExpiry, NewCertificate, Ordinal, Unlistable;
  }

  /** Evidence does matter: when an accepted certificate is decided again with another reading of its document, the
      case is renewed a second time exactly when that reading's expiry is later still. */
  lemma AnotherReadingRenewsAgain(s: CaseState, tick: Tick, reading: Tick)
    requires Decision1(s, tick).Decided? && Decision1(s, tick).decision.reason == Renewed
    requires reading.event == tick.event && !Unlistable(reading.evidence)
    ensures ExpiryFromEvidence(tick.evidence).Some?
    ensures var s' := Advance(s, tick);
            Advance(s', reading).cycle == s'.cycle + 1 <==>
              ExpiryFromEvidence(reading.evidence).Some?
              && Ordinal(ExpiryFromEvidence(tick.evidence).value) < Ordinal(ExpiryFromEvidence(reading.evidence).value)
  {
    hide Ordinal, Parse, Print, ExpiryFromEvidence, Unlistable, OnPacket, OnRenewalDue, OnOverdue;
    RenewalsAreCertificates(s, tick);
    if ExpiryFromEvidence(tick.evidence).Some? {
      PrintThenParse(ExpiryFromEvidence(tick.evidence).value);
    }
  }

  /** A run that writes late writes what it decided on the state it had read. When a renewal request decided on `s` is
      stored after a certificate has been accepted, the cycle falls back by one and the renewal is requested again, and
      the invariant survives exactly when the case had been opened by a packet that awaited its evidence. */
  lemma LateRequestTurnsBack(s: CaseState, request: Tick, certificate: Tick)
    requires WellKept(s)
    requires Decision1(s, request).Decided? && Decision1(s, request).decision.reason == RenewalRequestedReason
    requires Decision1(s, certificate).Decided? && Decision1(s, certificate).decision.reason == Renewed
    ensures var between := Advance(s, certificate);
            var after := Stored(between, Decision1(s, request));
            between.state == Active && after.state == RenewalRequested && after.cycle == between.cycle - 1
            && s.certificate.Some? && (WellKept(after) <==> s.cycle == s.certificate.value.evidenceVersion + 1)
  {
    hide Ordinal, Parse, Print, ExpiryFromEvidence, Unlistable;
    RenewalsAreCertificates(s, certificate);
    if ExpiryFromEvidence(certificate.evidence).Some? {
      PrintThenParse(ExpiryFromEvidence(certificate.evidence).value);
    }
  }

  /* ---- suppliers nobody asked for ---- */

  predicate DatedPacket(t: Tick) { t.event.on.Some? && t.event.kind == NewSupplierPacket && !Unlistable(t.evidence) }

  predicate ReadableCertificate(t: Tick) {
    t.event.on.Some? && t.event.kind == CertificateReceived && ExpiryFromEvidence(t.evidence).Some?
  }

  /** A readable certificate stands somewhere in the run. */
  ghost predicate CertifiedIn(ticks: seq<Tick>) { exists j :: 0 <= j < |ticks| && ReadableCertificate(ticks[j]) }

  ghost predicate PacketsComeLate(ticks: seq<Tick>) {
    forall i :: 0 <= i < |ticks| && DatedPacket(ticks[i]) ==> CertifiedIn(ticks[..i])
  }

  ghost predicate Opens(t: Tick) { ReadableCertificate(t) || (DatedPacket(t) && ExpiryFromEvidence(t.evidence).Some?) }

  /** A supplier's creation is never commanded exactly when no dated packet arrives before the first readable
      certificate; such a certificate still makes the case active. */
  lemma {:induction false} CreationIsSkippedExactly(supplier: string, ticks: seq<Tick>)
    ensures Run(Fresh(supplier), ticks).state == Onboarding <==> forall i :: 0 <= i < |ticks| ==> !Opens(ticks[i])
    ensures Count(Fresh(supplier), ticks, CreateSupplier) == 0 <==> PacketsComeLate(ticks)
    ensures PacketsComeLate(ticks) && CertifiedIn(ticks) ==> Run(Fresh(supplier), ticks).state != Onboarding
  {
    hide Decide, WellKept, Advance, Emits, ExpiryFromEvidence, DatedPacket, ReadableCertificate;
    if ticks != [] {
      var init, last := ticks[..|ticks| - 1], ticks[|ticks| - 1];
      var s := Run(Fresh(supplier), init);
      CreationIsSkippedExactly(supplier, init);
      Conservation(supplier, init);
      LeavesOnboarding(s, last);
      assert forall i :: 0 <= i < |init| ==> ticks[i] == init[i] && ticks[..i] == init[..i];
      assert PacketsComeLate(ticks) <==> PacketsComeLate(init) && (DatedPacket(last) ==> CertifiedIn(init));
      if DatedPacket(last) && PacketsComeLate(init) && !CertifiedIn(init) {
        forall i | 0 <= i < |init| ensures !Opens(init[i]) {
          if Opens(init[i]) { CertifiedEarlier(init, i); }
        }
      }
    }
  }

  lemma CertifiedEarlier(ticks: seq<Tick>, i: nat)
    requires i < |ticks| && PacketsComeLate(ticks) && Opens(ticks[i])
    ensures CertifiedIn(ticks)
  {
    if !ReadableCertificate(ticks[i]) {
      var j :| 0 <= j < i && ReadableCertificate(ticks[..i][j]);
      assert ReadableCertificate(ticks[j]);
    }
  }

  lemma LeavesOnboarding(s: CaseState, tick: Tick)
    requires WellKept(s)
    ensures s.state == Onboarding ==> (Advance(s, tick).state == Onboarding <==> !Opens(tick))
    ensures s.state != Onboarding ==> Advance(s, tick).state != Onboarding
    ensures Emits(s, tick, CreateSupplier, Advance(s, tick).cycle) <==> s.state == Onboarding && DatedPacket(tick)
  {
    hide Ordinal, Parse, Print, FirstExpiry;
    CommandsOf(s, tick, CreateSupplier);
  }
}
