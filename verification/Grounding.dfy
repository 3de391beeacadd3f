/** The check that extracted values come from the document (app/grounding.py). */
module Grounding {

  import opened Basics
  import opened Dates
  import L = Lifecycle
  import J = Json

  type Chars = char -> bool

  /** Page text and identity of the document a model was shown. */
  datatype Derivative = Derivative(checksum: string, pages: seq<string>)

  datatype Failure =
    | MalformedResult | ChecksumMismatch | PageOutOfRange | SpanNotFound | ValueNotInSpan
    | ConfidenceOutOfRange | ValueNotADate | AmbiguousSpan

  /** `Raised` is an exception escaping the check. */
  datatype Verdict = Grounded | Ungrounded(reason: Failure) | Raised

  predicate StandsAt(text: string, i: nat, part: string) {
    i + |part| <= |text| && text[i..i + |part|] == part
  }

  predicate Contains(text: string, part: string) {
    exists i: nat :: i <= |text| && StandsAt(text, i, part)
  }

  /** Four digits, two digits and two digits joined by hyphens, for some class of decimal digits. */
  predicate DateShapedAt(text: string, i: nat, digit: Chars) {
    i + 10 <= |text| && text[i + 4] == '-' && text[i + 7] == '-'
    && digit(text[i]) && digit(text[i + 1]) && digit(text[i + 2]) && digit(text[i + 3])
    && digit(text[i + 5]) && digit(text[i + 6]) && digit(text[i + 8]) && digit(text[i + 9])
  }

  /** The leftmost non-overlapping date-shaped pieces of the text from `i` on. */
  function DatePieces(text: string, i: nat, digit: Chars): seq<string>
    requires i <= |text|
    decreases |text| - i
  {
    if i == |text| then []
    else if DateShapedAt(text, i, digit) then [text[i..i + 10]] + DatePieces(text, i + 10, digit)
    else DatePieces(text, i + 1, digit)
  }

  function IsoDates(text: string, digit: Chars): seq<string> {
    Dedupe(DatePieces(text, 0, digit))
  }

  predicate ConfidenceInRange(c: J.Json)
    requires c.IsNumber()
  {
    0.0 <= c.Number() <= 1.0
  }

  /** The checks on one field, in order. A confidence too large for a float raises before it is compared. */
  function CheckField(entry: J.Json, d: Derivative, digit: Chars): Verdict {
    if !entry.Object? then Ungrounded(MalformedResult)
    else
      var span, value, page, confidence := entry.Get("span"), entry.Get("value"), entry.Get("page"),
        entry.Get("confidence");
      if !span.Str? || !value.Str? || !page.Int? || !confidence.IsNumber() then Ungrounded(MalformedResult)
      else if !J.FitsFloat(confidence.Number()) then Raised
      else if !ConfidenceInRange(confidence) then Ungrounded(ConfidenceOutOfRange)
      else if !(0 <= page.n < |d.pages|) then Ungrounded(PageOutOfRange)
      else if !Contains(d.pages[page.n], span.s) then Ungrounded(SpanNotFound)
      else if !Contains(span.s, value.s) then Ungrounded(ValueNotInSpan)
      else if entry.Get("name") != J.Str(L.EXPIRY_FIELD) then Grounded
      else
        var dates := IsoDates(span.s, digit);
        if |dates| == 0 then Ungrounded(ValueNotADate)
        else if |dates| > 1 then Ungrounded(AmbiguousSpan)
        else if dates[0] != value.s then Ungrounded(ValueNotInSpan)
        else if Parse(value.s).None? then Ungrounded(ValueNotADate)
        else Grounded
  }

  function CheckFields(fields: seq<J.Json>, d: Derivative, digit: Chars): Verdict {
    if fields == [] then Grounded
    else
      var first := CheckField(fields[0], d, digit);
      if first.Grounded? then CheckFields(fields[1..], d, digit) else first
  }

  function Validate(result: J.Json, d: Derivative, digit: Chars): Verdict {
    if !result.Object? then Ungrounded(MalformedResult)
    else if result.Get("document_checksum") != J.Str(d.checksum) then Ungrounded(ChecksumMismatch)
    else if !result.Get("fields").List? then Ungrounded(MalformedResult)
    else CheckFields(result.Get("fields").items, d, digit)
  }

  /* ---- what grounding buys ---- */

  /** The entry cites `date`: it is the entry's value, it stands in the entry's span, that span stands on the
      entry's page of the document, and every date-shaped piece of the span is that date. */
  ghost predicate Cites(entry: J.Json, date: string, d: Derivative, digit: Chars) {
    var page, span := entry.Get("page"), entry.Get("span");
    entry.Get("value") == J.Str(date) && page.Int? && span.Str? && 0 <= page.n < |d.pages|
    && Contains(d.pages[page.n], span.s) && Contains(span.s, date) && SoleDateOf(date, span.s, digit)
  }

  predicate NamesExpiry(entry: J.Json) { entry.Get("name") == J.Str(L.EXPIRY_FIELD) }

  /** The first field of the result that names the expiry cites `date`. */
  ghost predicate ExpiryCited(fields: seq<J.Json>, date: string, d: Derivative, digit: Chars) {
    exists i :: 0 <= i < |fields| && NamesExpiry(fields[i]) && Cites(fields[i], date, d, digit)
                && forall j :: 0 <= j < i ==> !NamesExpiry(fields[j])
  }

  ghost predicate SoleDateOf(date: string, span: string, digit: Chars) {
    DatePieces(span, 0, digit) != [] && forall x :: x in DatePieces(span, 0, digit) ==> x == date
  }

  lemma SingleIsoDate(span: string, digit: Chars)
    requires |IsoDates(span, digit)| == 1
    ensures SoleDateOf(IsoDates(span, digit)[0], span, digit)
  {
    var pieces := DatePieces(span, 0, digit);
    forall x | x in pieces ensures x == IsoDates(span, digit)[0] {
      assert x in IsoDates(span, digit);
    }
    assert IsoDates(span, digit)[0] in pieces;
  }

  lemma FieldCites(entry: J.Json, d: Derivative, digit: Chars)
    requires CheckField(entry, d, digit).Grounded? && NamesExpiry(entry)
    ensures entry.Get("value").Str? && Parse(entry.Get("value").s).Some?
    ensures Cites(entry, Print(Parse(entry.Get("value").s).value), d, digit)
  {
    hide Parse, Print, DatePieces, Contains, J.FitsFloat;
    ParseThenPrint(entry.Get("value").s);
    SingleIsoDate(entry.Get("span").s, digit);
  }

  lemma {:induction false} FirstExpiryCited(fields: seq<J.Json>, d: Derivative, digit: Chars)
    requires CheckFields(fields, d, digit).Grounded? && L.FirstExpiry(fields).Some?
    ensures ExpiryCited(fields, Print(L.FirstExpiry(fields).value), d, digit)
  {
    hide Parse, Print, DatePieces, Cites, CheckField;
    if NamesExpiry(fields[0]) {
      FieldCites(fields[0], d, digit);
    } else {
      FirstExpiryCited(fields[1..], d, digit);
      var date := Print(L.FirstExpiry(fields).value);
      var i :| 0 <= i < |fields[1..]| && NamesExpiry(fields[1..][i]) && Cites(fields[1..][i], date, d, digit)
               && forall j :: 0 <= j < i ==> !NamesExpiry(fields[1..][j]);
      assert fields[i + 1] == fields[1..][i];
      assert forall j :: 0 < j < i + 1 ==> fields[j] == fields[1..][j - 1];
    }
  }

  /** The expiry that the lifecycle reads from a grounded result, written back as text, is the value its first
      expiry field cites from the document: nothing is invented and parsing loses nothing. */
  lemma GroundedExpiryStandsOnThePage(result: J.Json, d: Derivative, digit: Chars)
    requires Validate(result, d, digit).Grounded? && L.ExpiryFromEvidence(Some(result)).Some?
    ensures result.Get("fields").List?
    ensures ExpiryCited(result.Get("fields").items, Print(L.ExpiryFromEvidence(Some(result)).value), d, digit)
    ensures result.Get("document_checksum") == J.Str(d.checksum)
  {
    hide Parse, Print, DatePieces, Cites, CheckField;
    FirstExpiryCited(result.Get("fields").items, d, digit);
  }

  /** A value accepted for an expiry has the shape of a full-date, so the other forms of a date that a parser may know
      never come this far. */
  lemma AcceptedExpiriesAreFullDates(entry: J.Json, d: Derivative, digit: Chars)
    requires CheckField(entry, d, digit).Grounded? && NamesExpiry(entry)
    ensures entry.Get("value").Str? && |entry.Get("value").s| == 10 && DateShapedAt(entry.Get("value").s, 0, digit)
  {
    hide Parse, Print, Contains, J.FitsFloat, DateShapedAt;
    var span := entry.Get("span").s;
    SingleIsoDate(span, digit);
    assert entry.Get("value").s in DatePieces(span, 0, digit);
    PiecesAreShaped(span, 0, digit);
  }

  lemma {:induction false} PiecesAreShaped(text: string, i: nat, digit: Chars)
    requires i <= |text|
    ensures forall x :: x in DatePieces(text, i, digit) ==> |x| == 10 && DateShapedAt(x, 0, digit)
    decreases |text| - i
  {
    if i < |text| {
      if DateShapedAt(text, i, digit) {
        PiecesAreShaped(text, i + 10, digit);
        var piece := text[i..i + 10];
        assert DateShapedAt(piece, 0, digit);
      } else {
        PiecesAreShaped(text, i + 1, digit);
      }
    }
  }

  /** A grounded result that names an expiry always yields one. */
  lemma {:induction false} NamedExpiryIsReadable(fields: seq<J.Json>, d: Derivative, digit: Chars, i: nat)
    requires CheckFields(fields, d, digit).Grounded?
    requires i < |fields| && NamesExpiry(fields[i])
    ensures L.FirstExpiry(fields).Some?
  {
    hide Parse, Print, DatePieces, Contains, J.FitsFloat;
    if i > 0 && !NamesExpiry(fields[0]) {
      NamedExpiryIsReadable(fields[1..], d, digit, i - 1);
    }
  }

  /* ---- what is accepted ---- */

  /** The field stands on the page it cites: its parts are typed, its confidence is a probability, its span stands on
      its page and its value in its span; and an expiry is the one date of its span and a day of the calendar. */
  ghost predicate Stands(entry: J.Json, d: Derivative, digit: Chars) {
    entry.Object?
    && var span, value := entry.Get("span"), entry.Get("value");
       var page, confidence := entry.Get("page"), entry.Get("confidence");
       span.Str? && value.Str? && page.Int?
       && ((confidence.Int? && 0 <= confidence.n <= 1) || (confidence.Float? && 0.0 <= confidence.x <= 1.0))
       && 0 <= page.n < |d.pages| && Contains(d.pages[page.n], span.s) && Contains(span.s, value.s)
       && (NamesExpiry(entry) ==> SoleDateOf(value.s, span.s, digit) && Parse(value.s).Some?)
  }

  lemma OneDateExactly(span: string, value: string, digit: Chars)
    ensures |IsoDates(span, digit)| == 1 && IsoDates(span, digit)[0] == value <==> SoleDateOf(value, span, digit)
  {
    var pieces, dates := DatePieces(span, 0, digit), IsoDates(span, digit);
    if |dates| == 1 { SingleIsoDate(span, digit); assert pieces[0] in pieces; }
    if SoleDateOf(value, span, digit) {
      assert pieces[0] in pieces && pieces[0] in dates;
      assert forall i :: 0 <= i < |dates| ==> dates[i] in dates;
      assert dates[0] == value && dates[|dates| - 1] == value;
    }
  }

  lemma FieldStandsExactly(entry: J.Json, d: Derivative, digit: Chars)
    ensures CheckField(entry, d, digit).Grounded? <==> Stands(entry, d, digit)
  {
    hide Parse, DatePieces, IsoDates, Contains, SoleDateOf, J.FitsFloat;
    var span, value, confidence := entry.Get("span"), entry.Get("value"), entry.Get("confidence");
    if span.Str? && value.Str? { OneDateExactly(span.s, value.s, digit); }
    if confidence.IsNumber() { ProbabilitiesFit(confidence.Number()); }
  }

  /** Two different dates stand in the span. */
  ghost predicate Ambiguous(span: string, digit: Chars) {
    exists x, y :: x in DatePieces(span, 0, digit) && y in DatePieces(span, 0, digit) && x != y
  }

  lemma TwoDatesExactly(span: string, digit: Chars)
    ensures |IsoDates(span, digit)| > 1 <==> Ambiguous(span, digit)
    ensures |IsoDates(span, digit)| == 0 <==> DatePieces(span, 0, digit) == []
  {
    var pieces, dates := DatePieces(span, 0, digit), IsoDates(span, digit);
    assert forall x :: x in pieces <==> x in dates;
    if |dates| > 1 { assert dates[0] in dates && dates[1] in dates && dates[0] != dates[1]; }
    if |dates| == 1 { SingleIsoDate(span, digit); }
    if pieces != [] { assert pieces[0] in pieces; }
    if dates != [] { assert dates[0] in dates; }
  }

  /** Why a field is turned down: each reason is given exactly when it holds and the ones before it do not. A date that
      is alone in its span and differs from the value is reported as a value that is not there. */
  lemma RejectionsExactly(entry: J.Json, d: Derivative, digit: Chars)
    ensures var v := CheckField(entry, d, digit);
            var span, value := entry.Get("span"), entry.Get("value");
            var page, confidence := entry.Get("page"), entry.Get("confidence");
            var typed := entry.Object? && span.Str? && value.Str? && page.Int? && confidence.IsNumber();
            var sure := typed && 0.0 <= confidence.Number() <= 1.0;
            var placed := sure && 0 <= page.n < |d.pages|;
            var spanned := placed && Contains(d.pages[page.n], span.s);
            var cited := spanned && Contains(span.s, value.s);
            var dated := cited && NamesExpiry(entry);
            (v == Ungrounded(MalformedResult) <==> !typed)
            && (v == Raised <==> typed && !J.FitsFloat(confidence.Number()))
            && (v == Ungrounded(ConfidenceOutOfRange) <==> typed && J.FitsFloat(confidence.Number()) && !sure)
            && (v == Ungrounded(PageOutOfRange) <==> sure && !placed)
            && (v == Ungrounded(SpanNotFound) <==> placed && !spanned)
            && (v == Ungrounded(AmbiguousSpan) <==> dated && Ambiguous(span.s, digit))
            && (v == Ungrounded(ValueNotADate) <==>
                  dated && (DatePieces(span.s, 0, digit) == []
                            || (SoleDateOf(value.s, span.s, digit) && Parse(value.s).None?)))
            && (v == Ungrounded(ValueNotInSpan) <==>
                  (spanned && !cited)
                  || (dated && DatePieces(span.s, 0, digit) != [] && !Ambiguous(span.s, digit)
                      && !SoleDateOf(value.s, span.s, digit)))
            && v != Ungrounded(ChecksumMismatch)
  {
    hide Parse, DatePieces, IsoDates, Contains, SoleDateOf, Ambiguous, J.FitsFloat;
    var span, value, confidence := entry.Get("span"), entry.Get("value"), entry.Get("confidence");
    if span.Str? && value.Str? {
      OneDateExactly(span.s, value.s, digit);
      TwoDatesExactly(span.s, digit);
    }
    if confidence.IsNumber() { ProbabilitiesFit(confidence.Number()); }
  }

  /** The first field that does not stand speaks for the extraction, once the extraction names its document. */
  lemma {:induction false} FirstFailureSpeaks(fields: seq<J.Json>, d: Derivative, digit: Chars, i: nat)
    requires i < |fields| && !Stands(fields[i], d, digit) && forall j :: 0 <= j < i ==> Stands(fields[j], d, digit)
    ensures CheckFields(fields, d, digit) == CheckField(fields[i], d, digit)
  {
    hide CheckField, Stands;
    FieldStandsExactly(fields[0], d, digit);
    if i > 0 { FirstFailureSpeaks(fields[1..], d, digit, i - 1); }
  }

  lemma ProbabilitiesFit(x: real)
    ensures 0.0 <= x <= 1.0 ==> J.FitsFloat(x)
  {
    assert J.FloatLimit() > 1;
  }

  /** An extraction is accepted exactly when it names the document it was made from and every field it lists stands on
      the page it cites. */
  lemma {:induction false} AcceptedExactly(result: J.Json, d: Derivative, digit: Chars)
    ensures Validate(result, d, digit).Grounded? <==>
              result.Object? && result.Get("document_checksum") == J.Str(d.checksum) && result.Get("fields").List?
              && forall i :: 0 <= i < |result.Get("fields").items| ==> Stands(result.Get("fields").items[i], d, digit)
  {
    hide CheckField, Stands;
    if result.Get("fields").List? {
      FieldsStandExactly(result.Get("fields").items, d, digit);
    }
  }

  lemma {:induction false} FieldsStandExactly(fields: seq<J.Json>, d: Derivative, digit: Chars)
    ensures CheckFields(fields, d, digit).Grounded? <==> forall i :: 0 <= i < |fields| ==> Stands(fields[i], d, digit)
  {
    hide CheckField, Stands;
    if fields != [] {
      FieldStandsExactly(fields[0], d, digit);
      FieldsStandExactly(fields[1..], d, digit);
      assert forall i :: 0 < i < |fields| ==> fields[i] == fields[1..][i - 1];
      forall i | 0 <= i < |fields[1..]| ensures Stands(fields[1..][i], d, digit) <==> Stands(fields[i + 1], d, digit) {
      }
      if forall i :: 0 <= i < |fields[1..]| ==> Stands(fields[1..][i], d, digit) {
        forall i | 0 < i < |fields| ensures Stands(fields[i], d, digit) { assert fields[1..][i - 1] == fields[i]; }
      }
    }
  }

  /** The date-shaped pieces of a text do not overlap, and no date shape stands clear of them: wherever one starts, a
      piece starts there or up to nine places before. */
  lemma {:induction false} EveryDateIsMet(text: string, i: nat, m: nat, digit: Chars)
    requires i <= m <= |text| && DateShapedAt(text, m, digit)
    ensures exists k: nat :: m - 9 <= k <= m && i <= k && DateShapedAt(text, k, digit)
                             && text[k..k + 10] in DatePieces(text, i, digit)
    decreases |text| - i
  {
    hide DateShapedAt;
    assert m + 10 <= |text| by { ShapesFit(text, m, digit); }
    if DateShapedAt(text, i, digit) {
      ShapesFit(text, i, digit);
      if m < i + 10 {
        assert text[i..i + 10] in DatePieces(text, i, digit);
      } else {
        EveryDateIsMet(text, i + 10, m, digit);
        var k: nat :| m - 9 <= k <= m && i + 10 <= k && DateShapedAt(text, k, digit)
                      && text[k..k + 10] in DatePieces(text, i + 10, digit);
        assert text[k..k + 10] in DatePieces(text, i, digit);
      }
    } else {
      EveryDateIsMet(text, i + 1, m, digit);
    }
  }

  lemma ShapesFit(text: string, m: nat, digit: Chars)
    requires DateShapedAt(text, m, digit)
    ensures m + 10 <= |text|
  {
  }

  /** The check raises exactly when the first field it does not pass has a confidence too large for a float and
      is otherwise typed as it should be. */
  lemma {:induction false} RaisesExactlyOnHugeConfidence(fields: seq<J.Json>, d: Derivative, digit: Chars)
    ensures CheckFields(fields, d, digit).Raised? <==>
              exists i :: 0 <= i < |fields| && HugeConfidence(fields[i])
                          && forall j :: 0 <= j < i ==> CheckField(fields[j], d, digit).Grounded?
  {
    hide Parse, DatePieces, Contains, J.FitsFloat, CheckField;
    if fields != [] {
      RaisesExactlyOnHugeConfidence(fields[1..], d, digit);
      FieldRaisesExactly(fields[0], d, digit);
      if CheckFields(fields, d, digit).Raised? && CheckField(fields[0], d, digit).Grounded? {
        var i :| 0 <= i < |fields[1..]| && HugeConfidence(fields[1..][i])
                 && forall j :: 0 <= j < i ==> CheckField(fields[1..][j], d, digit).Grounded?;
        assert HugeConfidence(fields[i + 1]);
        assert forall j :: 0 < j < i + 1 ==> fields[j] == fields[1..][j - 1];
      }
      if i :| 0 <= i < |fields| && HugeConfidence(fields[i])
              && forall j :: 0 <= j < i ==> CheckField(fields[j], d, digit).Grounded? {
        if i > 0 {
          assert fields[1..][i - 1] == fields[i];
          assert forall j :: 0 <= j < i - 1 ==> fields[1..][j] == fields[j + 1];
        }
      }
    }
  }

  predicate HugeConfidence(entry: J.Json) {
    entry.Get("span").Str? && entry.Get("value").Str? && entry.Get("page").Int?
    && entry.Get("confidence").IsNumber() && !J.FitsFloat(entry.Get("confidence").Number())
  }

  lemma FieldRaisesExactly(entry: J.Json, d: Derivative, digit: Chars)
    ensures CheckField(entry, d, digit).Raised? <==> HugeConfidence(entry)
  {
    hide Parse, DatePieces, Contains, J.FitsFloat;
  }
}
