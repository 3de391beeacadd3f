/** Sentence splitting and the document taint rule (app/injection.py). `digit` is the class of decimal
    digits and the directive and signal patterns are arbitrary matchers: the results hold for all of them. */
module Injection {

  import opened Basics

  type Chars = char -> bool

  predicate IsStop(c: char) { c == '.' || c == '!' || c == '?' }

  predicate IsBlank(c: char) { c == ' ' || c == '\t' }

  predicate IsNewline(c: char) { c == '\n' }

  predicate IsLower(c: char) {
    'a' <= c <= 'z' || '\U{00DF}' <= c <= '\U{00F6}' || '\U{00F8}' <= c <= '\U{00FF}'
  }

  /** A full stop between two digits is a decimal point. */
  predicate DecimalPointAt(text: string, i: nat, digit: Chars) {
    0 < i && i + 1 < |text| && text[i] == '.' && digit(text[i - 1]) && digit(text[i + 1])
  }

  /** The copy on which boundaries are looked for: decimal points become NUL characters. */
  function Mask(text: string, digit: Chars): (p: string)
    ensures |p| == |text|
  {
    seq(|text|, i requires 0 <= i < |text| => if DecimalPointAt(text, i, digit) then '\0' else text[i])
  }

  function Skip(p: string, i: nat, cls: Chars): (j: nat)
    requires i <= |p|
    ensures i <= j <= |p|
    ensures forall k :: i <= k < j ==> cls(p[k])
    ensures j < |p| ==> !cls(p[j])
    decreases |p| - i
  {
    if i < |p| && cls(p[i]) then Skip(p, i + 1, cls) else i
  }

  /** Where the terminator that starts at `i` ends; `i` itself when none starts there. The three rules, in
      order: a run of stops, a blank line, and a line break that is not followed by a lowercase word. */
  function TerminatorEnd(p: string, i: nat): (e: nat)
    requires i < |p|
    ensures i <= e <= |p|
  {
    if IsStop(p[i]) then Skip(p, i, IsStop)
    else if p[i] == '\n' then
      var j := Skip(p, i + 1, IsBlank);
      if j < |p| && p[j] == '\n' then Skip(p, j, IsNewline)
      else if j < |p| && IsLower(p[j]) then i
      else j
    else i
  }

  /** The first position from `i` on where a terminator starts, or the end of the text. */
  function NextTerminator(p: string, i: nat): (k: nat)
    requires i <= |p|
    ensures i <= k <= |p|
    ensures forall m :: i <= m < k ==> TerminatorEnd(p, m) == m
    ensures k < |p| ==> TerminatorEnd(p, k) > k
    decreases |p| - i
  {
    if i == |p| || TerminatorEnd(p, i) > i then i else NextTerminator(p, i + 1)
  }

  /** A sentence `[start, end)` and the terminator `[end, stop)` behind it. */
  datatype Piece = Piece(start: nat, end: nat, stop: nat)

  function Pieces(p: string, start: nat): (r: seq<Piece>)
    requires start <= |p|
    ensures |r| > 0
    decreases |p| - start
  {
    var k := NextTerminator(p, start);
    if k == |p| then [Piece(start, k, k)]
    else [Piece(start, k, TerminatorEnd(p, k))] + Pieces(p, TerminatorEnd(p, k))
  }

  datatype Sentence = Sentence(text: string, offset: nat)

  function Cut(text: string, pieces: seq<Piece>): seq<Sentence>
  {
    seq(|pieces|, i requires 0 <= i < |pieces| =>
      var q := pieces[i];
      if q.start <= q.end <= |text| then Sentence(text[q.start..q.end], q.start) else Sentence("", q.start))
  }

  function Sentences(text: string, digit: Chars): seq<Sentence> {
    Cut(text, Pieces(Mask(text, digit), 0))
  }

  /** The splitting loop: walks the terminators of the masked copy and slices the original. */
  method IterSentences(text: string, digit: Chars) returns (sentences: seq<Sentence>)
    ensures sentences == Sentences(text, digit)
  {
    hide Mask, TerminatorEnd, NextTerminator, Cut;
    var p := Mask(text, digit);
    var start := 0;
    var k := NextTerminator(p, 0);
    sentences := [];
    ghost var done: seq<Piece> := [];
    CutAppend(text, done);
    while k < |p|
      invariant start <= k <= |p| && k == NextTerminator(p, start)
      invariant done + Pieces(p, start) == Pieces(p, 0)
      invariant sentences == Cut(text, done)
      decreases |p| - start
    {
      var stop := TerminatorEnd(p, k);
      CutAppend(text, done);
      sentences := sentences + [Sentence(text[start..k], start)];
      done := done + [Piece(start, k, stop)];
      start := stop;
      k := NextTerminator(p, start);
    }
    CutAppend(text, done);
    sentences := sentences + [Sentence(text[start..], start)];
    assert text[start..] == text[start..|text|];
    assert Pieces(p, 0) == done + [Piece(start, k, k)];
  }

  lemma CutAppend(text: string, pieces: seq<Piece>)
    ensures pieces == [] ==> Cut(text, pieces) == []
    ensures forall q: Piece :: q.start <= q.end <= |text| ==>
              Cut(text, pieces + [q]) == Cut(text, pieces) + [Sentence(text[q.start..q.end], q.start)]
  {
  }

  /* ---- exactness ---- */

  /** Pieces cover `[start, |p|)` without gap or overlap, and only the last may lack a terminator. */
  ghost predicate Tiles(pieces: seq<Piece>, start: nat, size: nat) {
    |pieces| > 0 && pieces[0].start == start && pieces[|pieces| - 1].stop == size
    && (forall i :: 0 <= i < |pieces| ==> pieces[i].start <= pieces[i].end <= pieces[i].stop <= size)
    && (forall i :: 0 <= i < |pieces| - 1 ==> pieces[i].end < pieces[i].stop && pieces[i + 1].start == pieces[i].stop)
  }

  lemma {:induction false} PiecesTile(p: string, start: nat)
    requires start <= |p|
    ensures Tiles(Pieces(p, start), start, |p|)
    decreases |p| - start
  {
    var k := NextTerminator(p, start);
    if k < |p| {
      PiecesTile(p, TerminatorEnd(p, k));
    }
  }

  /** Sentences followed by their terminators. */
  function Rebuild(text: string, pieces: seq<Piece>): string {
    if pieces == [] then ""
    else
      var q := pieces[0];
      (if q.start <= q.end <= q.stop <= |text| then text[q.start..q.end] + text[q.end..q.stop] else "")
      + Rebuild(text, pieces[1..])
  }

  lemma {:induction false} TilesRebuild(text: string, pieces: seq<Piece>, start: nat)
    requires Tiles(pieces, start, |text|)
    ensures start <= |text| && Rebuild(text, pieces) == text[start..]
    decreases |pieces|
  {
    var q := pieces[0];
    if |pieces| == 1 {
      assert Rebuild(text, pieces[1..]) == "";
      assert text[q.start..q.end] + text[q.end..q.stop] == text[start..];
    } else {
      TilesRebuild(text, pieces[1..], q.stop);
      assert text[q.start..q.end] + text[q.end..q.stop] + text[q.stop..] == text[start..];
    }
  }

  lemma {:induction false} InsideAPieceNothingTerminates(p: string, start: nat, i: nat, m: nat)
    requires start <= |p| && i < |Pieces(p, start)|
    requires Pieces(p, start)[i].start <= m < Pieces(p, start)[i].end
    ensures m < |p| && TerminatorEnd(p, m) == m
    decreases |p| - start
  {
    var k := NextTerminator(p, start);
    if i > 0 {
      InsideAPieceNothingTerminates(p, TerminatorEnd(p, k), i - 1, m);
    }
  }

  /** A line break with a lowercase word after optional blanks: wrapped prose, not a boundary. */
  ghost predicate WrappedAt(text: string, m: nat) {
    exists j :: m < j < |text| && IsLower(text[j]) && forall b :: m < b < j ==> IsBlank(text[b])
  }

  lemma StopEndsLater(p: string, m: nat)
    requires m < |p| && IsStop(p[m])
    ensures TerminatorEnd(p, m) > m
  {
  }

  /** The characters of a sentence: no `!` or `?`, a full stop only as a decimal point, and a line break only
      where the next line continues in lowercase. */
  lemma InsideASentence(text: string, digit: Chars, i: nat, m: nat)
    requires var pieces := Pieces(Mask(text, digit), 0);
             i < |pieces| && pieces[i].start <= m < pieces[i].end
    ensures m < |text|
    ensures text[m] != '!' && text[m] != '?'
    ensures text[m] == '.' ==> DecimalPointAt(text, m, digit)
    ensures text[m] == '\n' ==> WrappedAt(text, m)
  {
    var p := Mask(text, digit);
    InsideAPieceNothingTerminates(p, 0, i, m);
    if IsStop(p[m]) {
      StopEndsLater(p, m);
    }
    if text[m] == '\n' {
      var j := Skip(p, m + 1, IsBlank);
      assert j < |p| && IsLower(p[j]) && text[j] == p[j];
      assert forall b :: m < b < j ==> IsBlank(p[b]) && text[b] == p[b];
    }
  }

  lemma CutIsExact(text: string, pieces: seq<Piece>, start: nat)
    requires Tiles(pieces, start, |text|)
    ensures |Cut(text, pieces)| == |pieces|
    ensures forall i :: 0 <= i < |pieces| ==>
              pieces[i].start <= pieces[i].end <= |text|
              && Cut(text, pieces)[i] == Sentence(text[pieces[i].start..pieces[i].end], pieces[i].start)
  {
  }

  /** Splitting is exact: the sentences are ordered, disjoint slices of the page at their reported offsets,
      and together with the terminators between them they are the page. */
  lemma SplittingIsExact(text: string, digit: Chars)
    ensures var pieces := Pieces(Mask(text, digit), 0);
            var sentences := Sentences(text, digit);
            Tiles(pieces, 0, |text|) && Rebuild(text, pieces) == text
            && |sentences| == |pieces|
            && (forall i :: 0 <= i < |sentences| ==>
                  sentences[i].offset == pieces[i].start
                  && sentences[i].offset + |sentences[i].text| == pieces[i].end
                  && sentences[i].text == text[pieces[i].start..pieces[i].end])
            && (forall i, j :: 0 <= i < j < |sentences| ==>
                  sentences[i].offset + |sentences[i].text| < sentences[j].offset)
  {
    hide Pieces, Mask, Cut, Rebuild, Tiles;
    var pieces := Pieces(Mask(text, digit), 0);
    PiecesTile(Mask(text, digit), 0);
    TilesRebuild(text, pieces, 0);
    CutIsExact(text, pieces, 0);
    forall i, j | 0 <= i < j < |pieces| ensures pieces[i].end < pieces[j].start {
      TilesAscend(pieces, 0, |text|, i, j);
    }
  }

  lemma {:induction false} TilesAscend(pieces: seq<Piece>, start: nat, size: nat, i: nat, j: nat)
    requires Tiles(pieces, start, size) && i < j < |pieces|
    ensures pieces[i].end < pieces[j].start
    decreases j
  {
    if j > i + 1 {
      TilesAscend(pieces, start, size, i, j - 1);
    }
  }

  /* ---- where sentences end ---- */

  /** What stands between two sentences: a run of stops, none of them a decimal point and no other stop behind it; or a
      line break, then blanks and line breaks only, and no lowercase word unless a line was left blank. */
  ghost predicate Terminates(text: string, end: nat, stop: nat, digit: Chars) {
    end < stop <= |text|
    && if text[end] == '\n' then
         (forall m :: end <= m < stop ==> text[m] == '\n' || text[m] == ' ' || text[m] == '\t')
         && ((exists m :: end < m < stop && text[m] == '\n')
             || stop == |text| || !IsLower(text[stop]))
       else
         (forall m :: end <= m < stop ==> IsFullStop(text, m, digit))
         && (stop < |text| ==> !IsFullStop(text, stop, digit))
  }

  /** A full stop, exclamation or question mark, and no decimal point. */
  predicate IsFullStop(text: string, m: nat, digit: Chars) {
    m < |text| && (text[m] == '.' || text[m] == '!' || text[m] == '?') && !DecimalPointAt(text, m, digit)
  }

  lemma StopsAreFull(text: string, m: nat, digit: Chars)
    requires m < |text|
    ensures IsStop(Mask(text, digit)[m]) <==> IsFullStop(text, m, digit)
    ensures Mask(text, digit)[m] == '\n' <==> text[m] == '\n'
    ensures IsBlank(Mask(text, digit)[m]) <==> text[m] == ' ' || text[m] == '\t'
    ensures IsLower(Mask(text, digit)[m]) <==> IsLower(text[m])
  {
  }

  lemma EndsTerminate(text: string, i: nat, digit: Chars)
    requires i < |text| && TerminatorEnd(Mask(text, digit), i) > i
    ensures Terminates(text, i, TerminatorEnd(Mask(text, digit), i), digit)
  {
    hide Mask, DecimalPointAt, IsLower;
    var p := Mask(text, digit);
    var stop := TerminatorEnd(p, i);
    forall m | i <= m < |text|
      ensures IsStop(p[m]) <==> IsFullStop(text, m, digit)
      ensures p[m] == '\n' <==> text[m] == '\n'
      ensures IsBlank(p[m]) <==> text[m] == ' ' || text[m] == '\t'
      ensures IsLower(p[m]) <==> IsLower(text[m])
    {
      StopsAreFull(text, m, digit);
    }
    if p[i] == '\n' {
      var j := Skip(p, i + 1, IsBlank);
      if j < |p| && p[j] == '\n' {
        assert i < j < stop && text[j] == '\n';
      }
    }
  }

  /** Sentences are parted by terminators and by nothing else. */
  lemma {:induction false} PiecesEndAtTerminators(text: string, start: nat, digit: Chars, i: nat)
    requires start <= |text| && i < |Pieces(Mask(text, digit), start)|
    ensures var q := Pieces(Mask(text, digit), start)[i];
            q.end < q.stop ==> Terminates(text, q.end, q.stop, digit)
    decreases |text| - start
  {
    hide Mask, TerminatorEnd, Terminates;
    var p := Mask(text, digit);
    var k := NextTerminator(p, start);
    if k < |p| {
      EndsTerminate(text, k, digit);
      if i > 0 {
        PiecesEndAtTerminators(text, TerminatorEnd(p, k), digit, i - 1);
      }
    }
  }

  /* ---- the scan ---- */

  /** A named pattern and the positions where it matches a sentence. */
  datatype Pattern = Pattern(id: string, find: string -> seq<nat>)

  datatype Finding = Finding(patternId: string, page: nat, offset: nat)

  datatype DirectiveHit = DirectiveHit(id: string, at: nat)

  function HitsOf(id: string, positions: seq<nat>): seq<DirectiveHit> {
    seq(|positions|, i requires 0 <= i < |positions| => DirectiveHit(id, positions[i]))
  }

  function DirectiveHits(directives: seq<Pattern>, sentence: string): seq<DirectiveHit> {
    if |directives| == 0 then []
    else HitsOf(directives[0].id, directives[0].find(sentence)) + DirectiveHits(directives[1..], sentence)
  }

  function FirstSignal(signals: seq<Pattern>, sentence: string): Option<string> {
    if |signals| == 0 then None
    else if signals[0].find(sentence) != [] then Some(signals[0].id)
    else FirstSignal(signals[1..], sentence)
  }

  function SentenceFindings(directives: seq<Pattern>, signals: seq<Pattern>, page: nat, s: Sentence): (r: seq<Finding>)
  {
    var hits := DirectiveHits(directives, s.text);
    var signal := FirstSignal(signals, s.text);
    if signal.None? then []
    else seq(|hits|, i requires 0 <= i < |hits| => Finding(hits[i].id + "+" + signal.value, page,
      s.offset + hits[i].at))
  }

  function PageFindings(directives: seq<Pattern>, signals: seq<Pattern>, page: nat,
                        sentences: seq<Sentence>): seq<Finding> {
    if sentences == [] then []
    else PageFindings(directives, signals, page, sentences[..|sentences| - 1])
         + SentenceFindings(directives, signals, page, sentences[|sentences| - 1])
  }

  function Findings(directives: seq<Pattern>, signals: seq<Pattern>, digit: Chars, pages: seq<string>): seq<Finding> {
    if pages == [] then []
    else Findings(directives, signals, digit, pages[..|pages| - 1])
         + PageFindings(directives, signals, |pages| - 1, Sentences(pages[|pages| - 1], digit))
  }

  predicate Tainted(directives: seq<Pattern>, signals: seq<Pattern>, digit: Chars, pages: seq<string>) {
    Findings(directives, signals, digit, pages) != []
  }

  /** Scans every sentence of every page in order. */
  method Scan(directives: seq<Pattern>, signals: seq<Pattern>, digit: Chars, pages: seq<string>)
    returns (tainted: bool, findings: seq<Finding>)
    ensures findings == Findings(directives, signals, digit, pages)
    ensures tainted == Tainted(directives, signals, digit, pages)
  {
    findings := [];
    for page := 0 to |pages|
      invariant findings == Findings(directives, signals, digit, pages[..page])
    {
      var sentences := IterSentences(pages[page], digit);
      var onPage: seq<Finding> := [];
      for i := 0 to |sentences|
        invariant onPage == PageFindings(directives, signals, page, sentences[..i])
      {
        assert sentences[..i + 1][..i] == sentences[..i];
        onPage := onPage + SentenceFindings(directives, signals, page, sentences[i]);
      }
      assert sentences[..|sentences|] == sentences;
      assert pages[..page + 1][..page] == pages[..page];
      findings := findings + onPage;
    }
    assert pages[..|pages|] == pages;
    tainted := findings != [];
  }

  ghost predicate Carries(patterns: seq<Pattern>, sentence: string) {
    exists i :: 0 <= i < |patterns| && patterns[i].find(sentence) != []
  }

  lemma {:induction false} HitsIffCarried(directives: seq<Pattern>, sentence: string)
    ensures DirectiveHits(directives, sentence) != [] <==> Carries(directives, sentence)
  {
    if |directives| > 0 {
      HitsIffCarried(directives[1..], sentence);
      if Carries(directives[1..], sentence) {
        var i :| 0 <= i < |directives[1..]| && directives[1..][i].find(sentence) != [];
        assert directives[i + 1].find(sentence) != [];
      }
      if Carries(directives, sentence) && directives[0].find(sentence) == [] {
        var i :| 0 <= i < |directives| && directives[i].find(sentence) != [];
        assert directives[1..][i - 1].find(sentence) != [];
      }
    }
  }

  lemma {:induction false} SignalIffCarried(signals: seq<Pattern>, sentence: string)
    ensures FirstSignal(signals, sentence).Some? <==> Carries(signals, sentence)
  {
    if |signals| > 0 {
      SignalIffCarried(signals[1..], sentence);
      if Carries(signals[1..], sentence) {
        var i :| 0 <= i < |signals[1..]| && signals[1..][i].find(sentence) != [];
        assert signals[i + 1].find(sentence) != [];
      }
      if Carries(signals, sentence) && signals[0].find(sentence) == [] {
        var i :| 0 <= i < |signals| && signals[i].find(sentence) != [];
        assert signals[1..][i - 1].find(sentence) != [];
      }
    }
  }

  ghost predicate Suspicious(directives: seq<Pattern>, signals: seq<Pattern>, sentence: string) {
    Carries(directives, sentence) && Carries(signals, sentence)
  }

  lemma SentenceTaintsIffSuspicious(directives: seq<Pattern>, signals: seq<Pattern>, page: nat, s: Sentence)
    ensures SentenceFindings(directives, signals, page, s) != [] <==> Suspicious(directives, signals, s.text)
  {
    HitsIffCarried(directives, s.text);
    SignalIffCarried(signals, s.text);
  }

  lemma {:induction false} PageTaintsIffSuspicious(directives: seq<Pattern>, signals: seq<Pattern>, page: nat,
                                                   sentences: seq<Sentence>)
    ensures PageFindings(directives, signals, page, sentences) != [] <==>
              exists i :: 0 <= i < |sentences| && Suspicious(directives, signals, sentences[i].text)
  {
    if sentences != [] {
      var last := |sentences| - 1;
      PageTaintsIffSuspicious(directives, signals, page, sentences[..last]);
      SentenceTaintsIffSuspicious(directives, signals, page, sentences[last]);
      assert forall i :: 0 <= i < last ==> sentences[..last][i] == sentences[i];
    }
  }

  ghost predicate SuspiciousPage(directives: seq<Pattern>, signals: seq<Pattern>, digit: Chars, page: string) {
    exists i :: 0 <= i < |Sentences(page, digit)| && Suspicious(directives, signals, Sentences(page, digit)[i].text)
  }

  /** A document is tainted exactly when one of its sentences carries both a directive and a signal. */
  lemma {:induction false} TaintedIffOneSentenceCarriesBoth(directives: seq<Pattern>, signals: seq<Pattern>,
                                                            digit: Chars, pages: seq<string>)
    ensures Tainted(directives, signals, digit, pages) <==>
              exists n :: 0 <= n < |pages| && SuspiciousPage(directives, signals, digit, pages[n])
  {
    hide Sentences, PageFindings, Suspicious;
    if pages != [] {
      var last := |pages| - 1;
      TaintedIffOneSentenceCarriesBoth(directives, signals, digit, pages[..last]);
      PageTaintsIffSuspicious(directives, signals, last, Sentences(pages[last], digit));
      assert forall n :: 0 <= n < last ==> pages[..last][n] == pages[n];
    }
  }

  /* ---- findings ---- */

  /** The finding names a directive that matches the sentence, where it matches, and the first signal that matches. */
  ghost predicate FoundIn(directives: seq<Pattern>, signals: seq<Pattern>, s: Sentence, f: Finding) {
    exists j, at, q :: IsHit(directives, s.text, j, at) && FirstIn(signals, s.text, q)
                       && f.patternId == directives[j].id + "+" + signals[q].id && f.offset == s.offset + at
  }

  ghost predicate IsHit(directives: seq<Pattern>, sentence: string, j: int, at: nat) {
    0 <= j < |directives| && at in directives[j].find(sentence)
  }

  ghost predicate FirstIn(signals: seq<Pattern>, sentence: string, q: int) {
    0 <= q < |signals| && signals[q].find(sentence) != [] && forall k :: 0 <= k < q ==> signals[k].find(sentence) == []
  }

  lemma {:induction false} FirstSignalIsFirst(signals: seq<Pattern>, sentence: string)
    requires FirstSignal(signals, sentence).Some?
    ensures exists q :: FirstIn(signals, sentence, q) && signals[q].id == FirstSignal(signals, sentence).value
  {
    if signals[0].find(sentence) != [] {
      assert FirstIn(signals, sentence, 0);
    } else {
      FirstSignalIsFirst(signals[1..], sentence);
      var q :| FirstIn(signals[1..], sentence, q) && signals[1..][q].id == FirstSignal(signals[1..], sentence).value;
      assert forall k :: 0 < k < q + 1 ==> signals[k] == signals[1..][k - 1];
      assert FirstIn(signals, sentence, q + 1);
    }
  }

  lemma {:induction false} HitsAreMatches(directives: seq<Pattern>, sentence: string)
    ensures forall h :: h in DirectiveHits(directives, sentence) <==>
              exists j :: IsHit(directives, sentence, j, h.at) && directives[j].id == h.id
  {
    if |directives| > 0 {
      HitsAreMatches(directives[1..], sentence);
      var first := HitsOf(directives[0].id, directives[0].find(sentence));
      forall h ensures h in first <==> h.id == directives[0].id && h.at in directives[0].find(sentence) {
        if h.id == directives[0].id && h.at in directives[0].find(sentence) {
          var m :| 0 <= m < |directives[0].find(sentence)| && directives[0].find(sentence)[m] == h.at;
          assert first[m] == h;
        }
      }
      forall h ensures h in DirectiveHits(directives, sentence) <==>
                 exists j :: IsHit(directives, sentence, j, h.at) && directives[j].id == h.id
      {
        if j :| IsHit(directives, sentence, j, h.at) && directives[j].id == h.id {
          if j > 0 { assert IsHit(directives[1..], sentence, j - 1, h.at) && directives[1..][j - 1].id == h.id; }
        }
        if j :| IsHit(directives[1..], sentence, j, h.at) && directives[1..][j].id == h.id {
          assert IsHit(directives, sentence, j + 1, h.at) && directives[j + 1].id == h.id;
        }
      }
    }
  }

  lemma FirstIsUnique(signals: seq<Pattern>, sentence: string, p: int, q: int)
    requires FirstIn(signals, sentence, p) && FirstIn(signals, sentence, q)
    ensures p == q
  {
  }

  lemma {:induction false} FirstMeansCarried(signals: seq<Pattern>, sentence: string, q: int)
    requires FirstIn(signals, sentence, q)
    ensures FirstSignal(signals, sentence) == Some(signals[q].id)
  {
    SignalIffCarried(signals, sentence);
    FirstSignalIsFirst(signals, sentence);
    var p :| FirstIn(signals, sentence, p) && signals[p].id == FirstSignal(signals, sentence).value;
    FirstIsUnique(signals, sentence, p, q);
  }

  lemma SentenceFindingsExactly(directives: seq<Pattern>, signals: seq<Pattern>, page: nat, s: Sentence)
    ensures forall f :: f in SentenceFindings(directives, signals, page, s) <==>
              f.page == page && FoundIn(directives, signals, s, f)
  {
    hide DirectiveHits, FirstSignal;
    var hits, found := DirectiveHits(directives, s.text), SentenceFindings(directives, signals, page, s);
    HitsAreMatches(directives, s.text);
    if FirstSignal(signals, s.text).Some? { FirstSignalIsFirst(signals, s.text); }
    forall f | f in found ensures f.page == page && FoundIn(directives, signals, s, f) {
      var i :| 0 <= i < |found| && found[i] == f;
      assert hits[i] in hits;
      var j :| IsHit(directives, s.text, j, hits[i].at) && directives[j].id == hits[i].id;
    }
    forall f: Finding | f.page == page && FoundIn(directives, signals, s, f) ensures f in found {
      var j, at, q :| IsHit(directives, s.text, j, at) && FirstIn(signals, s.text, q)
                      && f.patternId == directives[j].id + "+" + signals[q].id && f.offset == s.offset + at;
      FirstMeansCarried(signals, s.text, q);
      var h := DirectiveHit(directives[j].id, at);
      assert h in hits;
      var i :| 0 <= i < |hits| && hits[i] == h;
      assert found[i] == f;
    }
  }

  lemma {:induction false} PageFindingsExactly(directives: seq<Pattern>, signals: seq<Pattern>, page: nat,
                                               sentences: seq<Sentence>)
    ensures forall f :: f in PageFindings(directives, signals, page, sentences) <==>
              f.page == page && exists s :: s in sentences && FoundIn(directives, signals, s, f)
  {
    hide FoundIn, SentenceFindings;
    if sentences != [] {
      var init, last := sentences[..|sentences| - 1], sentences[|sentences| - 1];
      PageFindingsExactly(directives, signals, page, init);
      SentenceFindingsExactly(directives, signals, page, last);
      assert forall s :: s in sentences <==> s in init || s == last;
    }
  }

  /** A finding is made exactly where a directive matches in a sentence that carries a signal: it names the page, the
      place of the match in it, the directive, and the first signal of that sentence. */
  lemma {:induction false} FindingsExactly(directives: seq<Pattern>, signals: seq<Pattern>, digit: Chars,
                                           pages: seq<string>)
    ensures forall f :: f in Findings(directives, signals, digit, pages) <==>
              f.page < |pages|
              && exists s :: s in Sentences(pages[f.page], digit) && FoundIn(directives, signals, s, f)
  {
    hide FoundIn, PageFindings, Sentences;
    if pages != [] {
      var last := |pages| - 1;
      FindingsExactly(directives, signals, digit, pages[..last]);
      PageFindingsExactly(directives, signals, last, Sentences(pages[last], digit));
      assert forall n :: 0 <= n < last ==> pages[..last][n] == pages[n];
    }
  }
}
