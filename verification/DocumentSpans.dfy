/** Paragraph spans of an uploaded document and their offsets (finance/document_service.go). Offsets count runes. */
module DocumentSpans {
  import opened Common
  import opened WhiteSpace

  const MAX_RUNES := 2_000_000

  datatype Span = Span(page: Option<nat>, paragraph: nat, start: nat, end: nat, text: string)
  datatype Extracted = Extracted(text: string, spans: seq<Span>)

  predicate IsNewline(c: char) {
    c == '\n' || c == '\r'
  }

  /** A paragraph break starts at `p`: a newline followed by another. */
  predicate Break(text: string, p: nat) {
    p + 1 < |text| && text[p] == '\n' && IsNewline(text[p + 1])
  }

  ghost predicate BreakBetween(text: string, a: nat, b: nat) {
    exists p :: a <= p < b && Break(text, p)
  }

  ghost predicate Within(text: string, s: Span) {
    s.start < s.end <= |text| && s.text != "" && s.text == Trim(text[s.start..s.end])
  }

  ghost predicate Ordered(spans: seq<Span>) {
    forall j, k :: 0 <= j < k < |spans| ==> spans[j].end <= spans[k].start
  }

  ghost predicate InSomeSpan(spans: seq<Span>, p: nat) {
    exists k :: 0 <= k < |spans| && spans[k].start <= p < spans[k].end
  }

  /** Every rune before `end` that is not white space is in a span. */
  ghost predicate Covered(text: string, spans: seq<Span>, end: nat) {
    forall p: nat :: p < end && p < |text| && !IsSpace(text[p]) ==> InSomeSpan(spans, p)
  }

  /** The spans are in bounds, ordered, disjoint, carry their own trimmed text and leave out white space only. */
  ghost predicate SpansOf(text: string, spans: seq<Span>) {
    (forall k :: 0 <= k < |spans| ==> Within(text, spans[k])) && Ordered(spans) && Covered(text, spans, |text|)
  }

  ghost predicate NoBreakInside(text: string, s: Span) {
    forall p: nat :: s.start <= p && p + 1 < s.end ==> !Break(text, p)
  }

  ghost predicate Separated(text: string, spans: seq<Span>) {
    forall k :: 0 <= k && k + 1 < |spans| ==> BreakBetween(text, spans[k].end, spans[k + 1].start)
  }

  /** What the spans made so far are, with the text before `upto` dealt with. */
  ghost predicate SoFar(text: string, page: Option<nat>, spans: seq<Span>, upto: nat) {
    && (forall k :: 0 <= k < |spans| ==> SpanOk(text, page, k, spans[k]) && spans[k].end <= upto)
    && Ordered(spans) && Covered(text, spans, upto) && Separated(text, spans)
  }

  ghost predicate SpanOk(text: string, page: Option<nat>, k: nat, s: Span) {
    Within(text, s) && s.page == page && s.paragraph == k && NoBreakInside(text, s)
  }

  /** A break lies between the last span and the next paragraph. */
  ghost predicate Apart(text: string, spans: seq<Span>, start: nat) {
    spans != [] ==> BreakBetween(text, spans[|spans| - 1].end, start)
  }

  lemma {:induction false} BlankIsSpace(s: string)
    requires Trim(s) == ""
    ensures forall p :: 0 <= p < |s| ==> IsSpace(s[p])
  {
    if s != "" && IsSpace(s[0]) {
      BlankIsSpace(s[1..]);
      assert forall p :: 0 < p < |s| ==> s[p] == s[1..][p - 1];
    }
  }

  /** What a flush of the paragraph from `start` to `end` found. */
  ghost predicate FlushFound(text: string, page: Option<nat>, para: nat, start: nat, end: nat, span: Option<Span>)
    requires end <= |text|
  {
    match span
    case None => forall p :: start <= p < end ==> IsSpace(text[p])
    case Some(s) =>
      && Within(text, s) && start <= s.start && s.end <= end && s.page == page && s.paragraph == para
      && !IsNewline(text[s.start]) && !IsNewline(text[s.end - 1])
      && forall p :: start <= p < s.start || s.end <= p < end ==> IsNewline(text[p])
  }

  /** The closure that ends a paragraph: newlines are trimmed off its ends, blank paragraphs leave nothing. */
  method Flush(text: string, page: Option<nat>, para: nat, start: nat, end: nat)
    returns (span: Option<Span>, start': nat)
    requires start <= end <= |text|
    ensures start <= start' <= end
    ensures FlushFound(text, page, para, start, end, span) && (span.Some? ==> start' == span.value.end)
  {
    start' := start;
    while start' < end && IsNewline(text[start'])
      invariant start <= start' <= end && forall p :: start <= p < start' ==> IsNewline(text[p])
    {
      start' := start' + 1;
    }
    var e := end;
    while e > start' && IsNewline(text[e - 1])
      invariant start' <= e <= end && forall p :: e <= p < end ==> IsNewline(text[p])
    {
      e := e - 1;
    }
    if e <= start' {
      return None, start';
    }
    var value := Trim(text[start'..e]);
    if value == "" {
      BlankIsSpace(text[start'..e]);
      assert forall p :: start' <= p < e ==> text[p] == text[start'..e][p - start'];
      return None, start';
    }
    span := Some(Span(page, para, start', e, value));
    start' := e;
  }

  function With(spans: seq<Span>, span: Option<Span>): seq<Span> {
    if span.None? then spans else spans + [span.value]
  }

  lemma FlushedCoverage(text: string, page: Option<nat>, spans: seq<Span>, start: nat, end: nat, span: Option<Span>)
    requires start <= end <= |text| && Covered(text, spans, start) && FlushFound(text, page, |spans|, start, end, span)
    ensures Covered(text, With(spans, span), end)
  {
    var after := With(spans, span);
    forall p: nat | p < end && !IsSpace(text[p]) ensures InSomeSpan(after, p) {
      if p < start {
        var k :| 0 <= k < |spans| && spans[k].start <= p < spans[k].end;
        assert after[k] == spans[k];
      } else {
        assert span.Some? && after[|spans|] == span.value;
      }
    }
  }

  lemma FlushedSoFar(text: string, page: Option<nat>, spans: seq<Span>, start: nat, end: nat, span: Option<Span>)
    requires start <= end <= |text| && SoFar(text, page, spans, start) && Apart(text, spans, start)
    requires FlushFound(text, page, |spans|, start, end, span)
    requires forall p: nat :: start <= p < end ==> !Break(text, p)
    ensures SoFar(text, page, With(spans, span), end)
  {
    hide Covered, Break, BreakBetween, SpanOk, Separated, FlushFound, IsNewline;
    FlushedCoverage(text, page, spans, start, end, span);
    if span.Some? {
      FlushedSpanOk(text, page, |spans|, start, end, span.value);
      FlushedSeparated(text, page, spans, start, end, span.value);
    }
  }

  lemma FlushedSpanOk(text: string, page: Option<nat>, para: nat, start: nat, end: nat, s: Span)
    requires end <= |text| && FlushFound(text, page, para, start, end, Some(s))
    requires forall p: nat :: start <= p < end ==> !Break(text, p)
    ensures SpanOk(text, page, para, s) && start <= s.start < s.end <= end
  {
  }

  lemma FlushedSeparated(text: string, page: Option<nat>, spans: seq<Span>, start: nat, end: nat, s: Span)
    requires end <= |text| && Separated(text, spans) && Apart(text, spans, start)
             && FlushFound(text, page, |spans|, start, end, Some(s))
    ensures Separated(text, spans + [s])
  {
    hide Break, Within;
    if spans != [] {
      var p :| spans[|spans| - 1].end <= p < start && Break(text, p);
      assert BreakBetween(text, spans[|spans| - 1].end, s.start);
    }
  }

  /** Skipping the break after a paragraph. */
  lemma BreakSkipped(text: string, page: Option<nat>, spans: seq<Span>, i: nat, j: nat)
    requires i < j <= |text| && SoFar(text, page, spans, i) && Break(text, i)
             && forall p :: i <= p < j ==> IsNewline(text[p])
    ensures SoFar(text, page, spans, j) && Apart(text, spans, j)
  {
  }

  method TextSpans(text: string, page: Option<nat>) returns (spans: seq<Span>)
    ensures SpansOf(text, spans)
    ensures forall k :: 0 <= k < |spans| ==>
            spans[k].page == page && spans[k].paragraph == k && NoBreakInside(text, spans[k])
    ensures Separated(text, spans)
  {
    hide FlushFound, Within, NoBreakInside, Separated, Covered;
    spans := [];
    var start := 0;
    var i := 0;
    NothingSoFar(text, page);
    while i < |text|
      invariant start <= i <= |text|
      invariant SoFar(text, page, spans, start) && Apart(text, spans, start)
      invariant forall p: nat :: start <= p < i ==> !Break(text, p)
    {
      if text[i] == '\n' {
        var j := i;
        while j < |text| && IsNewline(text[j])
          invariant i <= j <= |text| && forall p :: i <= p < j ==> IsNewline(text[p])
        {
          j := j + 1;
        }
        if j - i >= 2 {
          var span, _ := Flush(text, page, |spans|, start, i);
          FlushedSoFar(text, page, spans, start, i, span);
          if span.Some? {
            spans := spans + [span.value];
          }
          BreakSkipped(text, page, spans, i, j);
          start := j;
          i := j;
          continue;
        }
      }
      i := i + 1;
    }
    var span, _ := Flush(text, page, |spans|, start, |text|);
    FlushedSoFar(text, page, spans, start, |text|, span);
    if span.Some? {
      spans := spans + [span.value];
    }
  }

  lemma NothingSoFar(text: string, page: Option<nat>)
    ensures SoFar(text, page, [], 0)
  {
  }
}
