/** Joining the pages of a PDF and the paragraphs of a DOCX into one text, with offsets into it
    (finance/document_service.go). */
module DocumentOffsets {
  import opened Common
  import opened WhiteSpace
  import opened DocumentSpans

  // ---------------------------------------------------------------- the joined text

  /** A page or paragraph that has text, with its number. */
  datatype Body = Body(number: nat, text: string)

  /** The usable text of a page or paragraph; None is a page without usable text layer. */
  function BodyText(raw: Option<string>, normalize: string -> string): string {
    if raw.None? then "" else Trim(normalize(raw.value))
  }

  /** A page's text layer, None when it has none, cannot be read or is blank before normalisation. */
  function Layer(page: Option<string>): Option<string> {
    if page.None? || Trim(page.value) == "" then None else page
  }

  function Layers(pages: seq<Option<string>>): (raws: seq<Option<string>>)
    ensures |raws| == |pages| && forall k :: 0 <= k < |pages| ==> raws[k] == Layer(pages[k])
  {
    seq(|pages|, k requires 0 <= k < |pages| => Layer(pages[k]))
  }

  function Given(paragraphs: seq<string>): (raws: seq<Option<string>>)
    ensures |raws| == |paragraphs| && forall k :: 0 <= k < |paragraphs| ==> raws[k] == Some(paragraphs[k])
  {
    seq(|paragraphs|, k requires 0 <= k < |paragraphs| => Some(paragraphs[k]))
  }

  function Bodies(raws: seq<Option<string>>, normalize: string -> string): seq<Body> {
    if raws == [] then []
    else
      var text := BodyText(raws[|raws| - 1], normalize);
      Bodies(raws[..|raws| - 1], normalize) + if text == "" then [] else [Body(|raws|, text)]
  }

  function Joined(bodies: seq<Body>, sep: string): string {
    if bodies == [] then ""
    else Lead(Joined(bodies[..|bodies| - 1], sep), sep) + bodies[|bodies| - 1].text
  }

  /** The text so far made ready for the next body. */
  function Lead(all: string, sep: string): string {
    if all == "" then "" else all + sep
  }

  /** Where body `k` starts in the joined text. */
  function Offset(bodies: seq<Body>, sep: string, k: nat): nat
    requires k <= |bodies|
  {
    |Lead(Joined(bodies[..k], sep), sep)|
  }

  ghost predicate BodiesOk(bodies: seq<Body>) {
    forall k :: 0 <= k < |bodies| ==> bodies[k].text != "" && TrimmedAlready(bodies[k].text)
  }

  lemma {:induction false} BodiesAreTrimmed(raws: seq<Option<string>>, normalize: string -> string)
    ensures BodiesOk(Bodies(raws, normalize))
  {
    if raws != [] {
      BodiesAreTrimmed(raws[..|raws| - 1], normalize);
      var raw := raws[|raws| - 1];
      if BodyText(raw, normalize) != "" {
        TrimTrims(normalize(raw.value));
      }
    }
  }

  /** The joined text starts and ends with a rune that is not white space, so trimming it moves no offset. */
  lemma {:induction false} JoinedIsTrimmed(bodies: seq<Body>, sep: string)
    requires BodiesOk(bodies)
    ensures TrimmedAlready(Joined(bodies, sep)) && Trim(Joined(bodies, sep)) == Joined(bodies, sep)
    ensures bodies != [] ==> Joined(bodies, sep) != ""
  {
    if bodies != [] {
      JoinedIsTrimmed(bodies[..|bodies| - 1], sep);
    }
    TrimTrims(Joined(bodies, sep));
  }

  lemma {:induction false} JoinedGrows(bodies: seq<Body>, k: nat, sep: string)
    requires k <= |bodies|
    ensures |Joined(bodies[..k], sep)| <= |Joined(bodies, sep)|
    decreases |bodies|
  {
    if k == |bodies| {
      assert bodies[..k] == bodies;
    } else {
      JoinedGrows(bodies[..|bodies| - 1], k, sep);
      assert bodies[..|bodies| - 1][..k] == bodies[..k];
    }
  }

  lemma {:induction false} BodiesGrow(raws: seq<Option<string>>, i: nat, normalize: string -> string)
    requires i <= |raws|
    ensures Bodies(raws[..i], normalize) <= Bodies(raws, normalize)
    decreases |raws|
  {
    if i == |raws| {
      assert raws[..i] == raws;
    } else {
      BodiesGrow(raws[..|raws| - 1], i, normalize);
      assert raws[..|raws| - 1][..i] == raws[..i];
    }
  }

  lemma JoinedTooLong(raws: seq<Option<string>>, i: nat, normalize: string -> string, sep: string)
    requires i <= |raws|
    ensures |Joined(Bodies(raws[..i], normalize), sep)| <= |Joined(Bodies(raws, normalize), sep)|
  {
    var all, part := Bodies(raws, normalize), Bodies(raws[..i], normalize);
    BodiesGrow(raws, i, normalize);
    assert all[..|part|] == part;
    JoinedGrows(all, |part|, sep);
  }

  // ---------------------------------------------------------------- spans of appended text

  function Shifted(s: Span, d: nat): Span {
    s.(start := s.start + d, end := s.end + d)
  }

  function AllShifted(spans: seq<Span>, d: nat): seq<Span> {
    seq(|spans|, k requires 0 <= k < |spans| => Shifted(spans[k], d))
  }

  ghost predicate Blank(s: string) {
    forall k :: 0 <= k < |s| ==> IsSpace(s[k])
  }

  lemma AppendedWithin(a: string, b: string, x: Span, y: Span)
    ensures Within(a, x) ==> Within(a + b, x)
    ensures Within(b, y) ==> Within(a + b, Shifted(y, |a|))
  {
    if Within(a, x) {
      assert (a + b)[x.start..x.end] == a[x.start..x.end];
    }
    if Within(b, y) {
      assert (a + b)[y.start + |a|..y.end + |a|] == b[y.start..y.end];
    }
  }

  lemma AppendedCovered(a: string, lead: string, b: string, xs: seq<Span>, ys: seq<Span>)
    requires Covered(a, xs, |a|) && Covered(b, ys, |b|) && a <= lead && Blank(lead[|a|..])
    ensures Covered(lead + b, xs + AllShifted(ys, |lead|), |lead + b|)
  {
    var zs := xs + AllShifted(ys, |lead|);
    assert forall p: nat :: |a| <= p < |lead| ==> lead[p] == lead[|a|..][p - |a|];
    forall p: nat | p < |lead + b| && !IsSpace((lead + b)[p]) ensures InSomeSpan(zs, p) {
      if p < |a| {
        assert InSomeSpan(xs, p);
        var k :| 0 <= k < |xs| && xs[k].start <= p < xs[k].end;
        assert zs[k] == xs[k];
      } else {
        assert InSomeSpan(ys, p - |lead|);
        var k :| 0 <= k < |ys| && ys[k].start <= p - |lead| < ys[k].end;
        assert zs[|xs| + k] == Shifted(ys[k], |lead|);
      }
    }
  }

  /** Spans of a text and of what is appended to it after blank text, shifted, are spans of the whole. */
  lemma AppendedSpans(a: string, lead: string, b: string, xs: seq<Span>, ys: seq<Span>)
    requires SpansOf(a, xs) && SpansOf(b, ys) && a <= lead && Blank(lead[|a|..])
    ensures SpansOf(lead + b, xs + AllShifted(ys, |lead|))
  {
    hide Covered, Within;
    AppendedCovered(a, lead, b, xs, ys);
    var zs := xs + AllShifted(ys, |lead|);
    forall k | 0 <= k < |zs| ensures Within(lead + b, zs[k]) {
      assert lead + b == a + (lead[|a|..] + b);
      if k < |xs| {
        AppendedWithin(a, lead[|a|..] + b, xs[k], xs[k]);
      } else {
        AppendedWithin(lead, b, ys[k - |xs|], ys[k - |xs|]);
      }
    }
    SpansInBounds(a, xs);
  }

  lemma SpansInBounds(a: string, xs: seq<Span>)
    requires SpansOf(a, xs)
    ensures forall k :: 0 <= k < |xs| ==> xs[k].start < xs[k].end <= |a|
  {
  }

  // ---------------------------------------------------------------- PDF: pages joined by newlines

  const NEWLINE: string := "\n"

  /** The span lies on the stretch of the joined text that came from its page. */
  ghost predicate OnItsPage(bodies: seq<Body>, s: Span) {
    exists k :: 0 <= k < |bodies| && OnBody(bodies, k, s)
  }

  ghost predicate OnBody(bodies: seq<Body>, k: nat, s: Span)
    requires k < |bodies|
  {
    var o := Offset(bodies, NEWLINE, k);
    s.page == Some(bodies[k].number) && o <= s.start && s.end <= o + |bodies[k].text|
  }

  /** The spans collected from the pages so far. */
  ghost predicate PagesOk(bodies: seq<Body>, all: string, spans: seq<Span>) {
    && all == Joined(bodies, NEWLINE) && SpansOf(all, spans) && (bodies == [] <==> spans == [])
    && (forall k :: 0 <= k < |spans| ==> OnItsPage(bodies, spans[k]))
    && Numbered(spans)
  }

  /** Paragraphs are numbered from 0 on every page. */
  ghost predicate Numbered(spans: seq<Span>) {
    forall k :: 0 <= k < |spans| ==>
      spans[k].paragraph == if k == 0 || spans[k - 1].page != spans[k].page then 0 else spans[k - 1].paragraph + 1
  }

  lemma {:induction false} NumbersAreBelow(raws: seq<Option<string>>, normalize: string -> string)
    ensures forall k :: 0 <= k < |Bodies(raws, normalize)| ==> Bodies(raws, normalize)[k].number <= |raws|
  {
    if raws != [] {
      NumbersAreBelow(raws[..|raws| - 1], normalize);
      BodiesLast(raws, normalize);
    }
  }

  lemma NumberedNext(bodies: seq<Body>, b: Body, spans: seq<Span>, pageSpans: seq<Span>, d: nat)
    requires Numbered(spans) && forall k :: 0 <= k < |spans| ==> OnItsPage(bodies, spans[k])
    requires forall k :: 0 <= k < |bodies| ==> bodies[k].number < b.number
    requires forall k :: 0 <= k < |pageSpans| ==> pageSpans[k].page == Some(b.number) && pageSpans[k].paragraph == k
    ensures Numbered(spans + AllShifted(pageSpans, d))
  {
    hide OnItsPage, Numbered;
    if spans != [] {
      EarlierPage(bodies, b, spans[|spans| - 1]);
    }
    NumberedAfterPage(spans, AllShifted(pageSpans, d), b.number);
  }

  lemma EarlierPage(bodies: seq<Body>, b: Body, s: Span)
    requires OnItsPage(bodies, s) && forall k :: 0 <= k < |bodies| ==> bodies[k].number < b.number
    ensures s.page != Some(b.number)
  {
    hide Offset;
    var k :| 0 <= k < |bodies| && OnBody(bodies, k, s);
    assert bodies[k].number < b.number;
  }

  lemma NumberedAfterPage(spans: seq<Span>, more: seq<Span>, page: nat)
    requires Numbered(spans) && (spans != [] ==> spans[|spans| - 1].page != Some(page))
    requires forall k :: 0 <= k < |more| ==> more[k].page == Some(page) && more[k].paragraph == k
    ensures Numbered(spans + more)
  {
    var all := spans + more;
    forall k | 0 <= k < |all|
      ensures all[k].paragraph == if k == 0 || all[k - 1].page != all[k].page then 0 else all[k - 1].paragraph + 1
    {
      if k >= |spans| {
        assert all[k] == more[k - |spans|];
        assert k > |spans| ==> all[k - 1] == more[k - 1 - |spans|];
        assert 0 < k == |spans| ==> all[k - 1] == spans[|spans| - 1];
      } else {
        assert all[k] == spans[k] && (k > 0 ==> all[k - 1] == spans[k - 1]);
      }
    }
  }

  lemma StillOnItsPage(bodies: seq<Body>, b: Body, s: Span)
    requires OnItsPage(bodies, s)
    ensures OnItsPage(bodies + [b], s)
  {
    var k :| 0 <= k < |bodies| && OnBody(bodies, k, s);
    assert (bodies + [b])[..k] == bodies[..k];
    assert OnBody(bodies + [b], k, s);
  }

  lemma NextPageOk(bodies: seq<Body>, b: Body, all: string, spans: seq<Span>, pageSpans: seq<Span>)
    requires PagesOk(bodies, all, spans) && b.text != "" && TrimmedAlready(b.text)
    requires SpansOf(b.text, pageSpans) && forall k :: 0 <= k < |bodies| ==> bodies[k].number < b.number
    requires forall k :: 0 <= k < |pageSpans| ==> pageSpans[k].page == Some(b.number) && pageSpans[k].paragraph == k
    ensures PagesOk(bodies + [b], Lead(all, NEWLINE) + b.text, spans + AllShifted(pageSpans, |Lead(all, NEWLINE)|))
  {
    hide SpansOf, OnBody, Numbered;
    var lead := Lead(all, NEWLINE);
    NumberedNext(bodies, b, spans, pageSpans, |lead|);
    var shifted := AllShifted(pageSpans, |lead|);
    var after := bodies + [b];
    assert after[..|after| - 1] == bodies;
    assert Blank(lead[|all|..]);
    AppendedSpans(all, lead, b.text, spans, pageSpans);
    SomeSpan(b.text, pageSpans);
    SpansInBounds(b.text, pageSpans);
    forall k | 0 <= k < |spans + shifted| ensures OnItsPage(after, (spans + shifted)[k]) {
      if k < |spans| {
        StillOnItsPage(bodies, b, spans[k]);
      } else {
        LastPage(bodies, b, pageSpans[k - |spans|]);
        assert OnBody(after, |bodies|, shifted[k - |spans|]);
      }
    }
  }

  lemma LastPage(bodies: seq<Body>, b: Body, s: Span)
    requires s.page == Some(b.number) && s.end <= |b.text|
    ensures OnBody(bodies + [b], |bodies|, Shifted(s, |Lead(Joined(bodies, NEWLINE), NEWLINE)|))
  {
    assert (bodies + [b])[..|bodies|] == bodies;
  }

  lemma SomeSpan(text: string, spans: seq<Span>)
    requires SpansOf(text, spans) && text != "" && TrimmedAlready(text)
    ensures spans != []
  {
    assert InSomeSpan(spans, 0);
  }

  method ShiftInto(spans: seq<Span>, pageSpans: seq<Span>, offset: nat) returns (out: seq<Span>)
    ensures out == spans + AllShifted(pageSpans, offset)
  {
    out := spans;
    for i := 0 to |pageSpans|
      invariant out == spans + AllShifted(pageSpans, offset)[..i]
    {
      var span := pageSpans[i];
      span := span.(start := span.start + offset, end := span.end + offset);
      out := out + [span];
    }
  }

  method ExtractPdf(pages: seq<Option<string>>, normalize: string -> string) returns (r: Option<Extracted>)
    ensures var bodies := Bodies(Layers(pages), normalize);
            && (r.Some? <==> bodies != [] && |Joined(bodies, NEWLINE)| <= 2_000_000)
            && (r.Some? ==> PagesOk(bodies, r.value.text, r.value.spans))
  {
    hide PagesOk, Lead, Joined, BodyText, Layers, Bodies, Trim, TrimmedAlready, SpansOf, Separated, NoBreakInside;
    NoBodies(normalize);
    ghost var raws := Layers(pages);
    var all, spans, offset := "", [], 0;
    assert PagesOk([], "", []) by { NoPagesOk(); }
    for i := 0 to |pages|
      invariant PagesOk(Bodies(raws[..i], normalize), all, spans)
      invariant offset == |all| <= MAX_RUNES
    {
      assert raws[..i + 1] == raws[..i] + [raws[i]];
      BodiesNext(raws[..i], raws[i], normalize);
      BodyIs(raws[i], normalize);
      if pages[i].None? || Trim(pages[i].value) == "" {
        continue;
      }
      var pageText := Trim(normalize(pages[i].value));
      if pageText == "" {
        continue;
      }
      ghost var bodies := Bodies(raws[..i], normalize);
      BodyTrimmed(raws[i], normalize);
      ghost var before := all;
      LeadIs(all, NEWLINE);
      if |all| > 0 {
        all := all + NEWLINE;
        offset := offset + 1;
      }
      var pageSpans := TextSpans(pageText, Some(i + 1));
      NumbersAreBelow(raws[..i], normalize);
      NextPageOk(bodies, Body(i + 1, pageText), before, spans, pageSpans);
      spans := ShiftInto(spans, pageSpans, offset);
      all := all + pageText;
      offset := offset + |pageText|;
      if |all| > MAX_RUNES {
        PagesAreJoined(Bodies(raws[..i + 1], normalize), all, spans);
        JoinedTooLong(raws, i + 1, normalize, NEWLINE);
        return None;
      }
    }
    assert raws[..|pages|] == raws;
    ghost var bodies := Bodies(raws, normalize);
    PagesAreJoined(bodies, all, spans);
    BodiesAreTrimmed(raws, normalize);
    JoinedIsTrimmed(bodies, NEWLINE);
    var text := Trim(all);
    if text == "" || |spans| == 0 {
      return None;
    }
    r := Some(Extracted(text, spans));
  }

  lemma BodiesLast(raws: seq<Option<string>>, normalize: string -> string)
    requires raws != []
    ensures var text := BodyText(raws[|raws| - 1], normalize);
            Bodies(raws, normalize) ==
              Bodies(raws[..|raws| - 1], normalize) + if text == "" then [] else [Body(|raws|, text)]
  {
    hide BodyText;
  }

  lemma BodiesNext(raws: seq<Option<string>>, raw: Option<string>, normalize: string -> string)
    ensures Bodies(raws + [raw], normalize) ==
            if BodyText(raw, normalize) == "" then Bodies(raws, normalize)
              else Bodies(raws, normalize) + [Body(|raws| + 1, BodyText(raw, normalize))]
  {
    hide BodyText, Bodies;
    BodiesLast(raws + [raw], normalize);
    assert (raws + [raw])[..|raws|] == raws;
  }

  lemma NoBodies(normalize: string -> string)
    ensures Bodies([], normalize) == []
  {
  }

  lemma BodyIs(raw: Option<string>, normalize: string -> string)
    ensures BodyText(raw, normalize) == if raw.None? then "" else Trim(normalize(raw.value))
  {
  }

  lemma NoPagesOk()
    ensures PagesOk([], "", [])
  {
  }

  lemma BodyTrimmed(raw: Option<string>, normalize: string -> string)
    ensures TrimmedAlready(BodyText(raw, normalize))
  {
    if raw.Some? {
      TrimTrims(normalize(raw.value));
    }
  }

  lemma LeadIs(all: string, sep: string)
    ensures Lead(all, sep) == if |all| > 0 then all + sep else all
  {
  }

  lemma PagesAreJoined(bodies: seq<Body>, all: string, spans: seq<Span>)
    requires PagesOk(bodies, all, spans)
    ensures all == Joined(bodies, NEWLINE) && (bodies == [] <==> spans == [])
  {
  }

  // ---------------------------------------------------------------- DOCX: paragraphs joined by blank lines

  const BLANK_LINE: string := "\n\n"

  /** Every paragraph is one span, numbered in order, and its text is exactly the stretch it names. */
  ghost predicate ParagraphsOk(bodies: seq<Body>, all: string, spans: seq<Span>) {
    && all == Joined(bodies, BLANK_LINE) && SpansOf(all, spans) && |spans| == |bodies|
    && forall k :: 0 <= k < |spans| ==>
         && spans[k].page == None && spans[k].paragraph == k && spans[k].text == bodies[k].text
         && spans[k].end <= |all| && all[spans[k].start..spans[k].end] == bodies[k].text
  }

  lemma WholeIsItsSpan(text: string, paragraph: nat)
    requires text != "" && TrimmedAlready(text)
    ensures SpansOf(text, [Span(None, paragraph, 0, |text|, text)])
  {
    TrimTrims(text);
    var s := Span(None, paragraph, 0, |text|, text);
    assert text[0..|text|] == text;
    forall p: nat | p < |text| ensures InSomeSpan([s], p) {
      assert [s][0].start <= p < [s][0].end;
    }
  }

  lemma JoinedNext(bodies: seq<Body>, b: Body, sep: string)
    ensures Joined(bodies + [b], sep) == Lead(Joined(bodies, sep), sep) + b.text
  {
    assert (bodies + [b])[..|bodies|] == bodies;
  }

  lemma NextParagraphOk(bodies: seq<Body>, b: Body, all: string, spans: seq<Span>)
    requires ParagraphsOk(bodies, all, spans) && b.text != "" && TrimmedAlready(b.text)
    ensures var lead := Lead(all, BLANK_LINE);
            ParagraphsOk(bodies + [b], lead + b.text, spans + [Span(None, |spans|, |lead|, |lead| + |b.text|, b.text)])
  {
    hide SpansOf, Joined;
    var lead := Lead(all, BLANK_LINE);
    var s := Span(None, |spans|, |lead|, |lead| + |b.text|, b.text);
    var whole := Span(None, |spans|, 0, |b.text|, b.text);
    JoinedNext(bodies, b, BLANK_LINE);
    assert Blank(lead[|all|..]);
    WholeIsItsSpan(b.text, |spans|);
    AppendedSpans(all, lead, b.text, spans, [whole]);
    assert AllShifted([whole], |lead|) == [s];
    SpansInBounds(all, spans);
    forall k | 0 <= k < |spans| ensures (lead + b.text)[spans[k].start..spans[k].end] == bodies[k].text {
      assert (lead + b.text)[spans[k].start..spans[k].end] == all[spans[k].start..spans[k].end];
    }
    assert (lead + b.text)[|lead|..|lead| + |b.text|] == b.text;
  }

  method ExtractDocx(paragraphs: seq<string>, normalize: string -> string) returns (r: Option<Extracted>)
    ensures var bodies := Bodies(Given(paragraphs), normalize);
            && (r.Some? <==> bodies != [] && |Joined(bodies, BLANK_LINE)| <= 2_000_000)
            && (r.Some? ==> ParagraphsOk(bodies, r.value.text, r.value.spans))
  {
    hide ParagraphsOk, Lead, Joined, BodyText, Given, Bodies, Trim, TrimmedAlready;
    NoBodies(normalize);
    ghost var raws := Given(paragraphs);
    var b, spans := "", [];
    assert ParagraphsOk([], "", []) by { NoParagraphsOk(); }
    for i := 0 to |paragraphs|
      invariant ParagraphsOk(Bodies(raws[..i], normalize), b, spans)
      invariant |b| <= MAX_RUNES
    {
      assert raws[..i + 1] == raws[..i] + [raws[i]];
      BodiesNext(raws[..i], raws[i], normalize);
      BodyIs(raws[i], normalize);
      var paragraph := Trim(normalize(paragraphs[i]));
      if paragraph == "" {
        continue;
      }
      BodyTrimmed(raws[i], normalize);
      LeadIs(b, BLANK_LINE);
      NextParagraphOk(Bodies(raws[..i], normalize), Body(i + 1, paragraph), b, spans);
      if |b| > 0 {
        b := b + BLANK_LINE;
      }
      var start := |b|;
      b := b + paragraph;
      var end := |b|;
      spans := spans + [Span(None, |spans|, start, end, paragraph)];
      if end > MAX_RUNES {
        ParagraphsAreJoined(Bodies(raws[..i + 1], normalize), b, spans);
        JoinedTooLong(raws, i + 1, normalize, BLANK_LINE);
        return None;
      }
    }
    assert raws[..|paragraphs|] == raws;
    ParagraphsAreJoined(Bodies(raws, normalize), b, spans);
    if |spans| == 0 {
      return None;
    }
    r := Some(Extracted(b, spans));
  }

  lemma NoParagraphsOk()
    ensures ParagraphsOk([], "", [])
  {
  }

  lemma ParagraphsAreJoined(bodies: seq<Body>, all: string, spans: seq<Span>)
    requires ParagraphsOk(bodies, all, spans)
    ensures all == Joined(bodies, BLANK_LINE) && |spans| == |bodies|
  {
  }
}
