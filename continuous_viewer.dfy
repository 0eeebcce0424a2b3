/**
 * src/components/video/ContinuousTranscriptViewer.tsx: the viewer's own
 * grouping of the transcript into continuous segments. Its words carry their
 * times as strings, which are converted with the given `parse`; a silence of
 * more than 0.3 s starts a new segment, whose text is its words joined by
 * single spaces.
 */
module ContinuousViewer {
  import opened Common
  import opened Continuity

  /** A new segment starts after a silence of more than this many seconds. */
  const ViewerGap: real := 0.3

  /** A transcript word as the viewer reads it: its times are strings. */
  datatype RawWord = RawWord(word: string, startTime: string, endTime: string)

  /** A continuous segment: joined text, the time strings of its end words, and its words. */
  datatype Segment = Segment(text: string, startTime: string, endTime: string, words: seq<string>)

  /** The words with their times converted by `parse` (parseFloat). */
  function Parsed(raw: seq<RawWord>, parse: string -> real): (r: seq<Word>)
    ensures |r| == |raw|
    ensures forall i :: 0 <= i < |raw| ==> r[i] == Word(raw[i].word, parse(raw[i].startTime), parse(raw[i].endTime))
  {
    seq(|raw|, i requires 0 <= i < |raw| => Word(raw[i].word, parse(raw[i].startTime), parse(raw[i].endTime)))
  }

  /** The word texts of a run of raw words. */
  function Words(raw: seq<RawWord>): (r: seq<string>)
    ensures |r| == |raw|
    ensures forall i :: 0 <= i < |raw| ==> r[i] == raw[i].word
  {
    seq(|raw|, i requires 0 <= i < |raw| => raw[i].word)
  }

  /** The finished segment for the words of a span. */
  function SegmentOf(raw: seq<RawWord>, s: Span): Segment
    requires s.first <= s.last < |raw|
  {
    var words := Words(raw[s.first..s.last + 1]);
    Segment(Join(words), raw[s.first].startTime, raw[s.last].endTime, words)
  }

  function SegmentsOf(raw: seq<RawWord>, spans: seq<Span>): (r: seq<Segment>)
    requires forall k :: 0 <= k < |spans| ==> spans[k].first <= spans[k].last < |raw|
    ensures |r| == |spans|
    ensures forall k :: 0 <= k < |spans| ==> r[k] == SegmentOf(raw, spans[k])
  {
    seq(|spans|, k requires 0 <= k < |spans| => SegmentOf(raw, spans[k]))
  }

  /** Specification of continuousSegments: one segment per span of the continuity scan on the parsed times. */
  function ViewerSegments(raw: seq<RawWord>, parse: string -> real, gap: real): seq<Segment>
  {
    SegmentsOf(raw, Spans(Parsed(raw, parse), gap))
  }

  /** The open segment as it is pushed: its text is filled in from its words. */
  function Close(c: Segment): Segment
  {
    c.(text := Join(c.words))
  }

  lemma ViewerStepFirst(raw: seq<RawWord>, parse: string -> real, gap: real)
    requires 0 < |raw|
    ensures [Close(Segment("", raw[0].startTime, raw[0].endTime, [raw[0].word]))] ==
      SegmentsOf(raw, SpansUpTo(Parsed(raw, parse), gap, 1))
  {
    assert SpansUpTo(Parsed(raw, parse), gap, 1) == [Span(0, 0)];
    assert Words(raw[0..1]) == [raw[0].word];
  }

  /** A word after a long silence finishes the open segment and opens a new one. */
  lemma ViewerStepOpen(raw: seq<RawWord>, parse: string -> real, gap: real, n: nat, segments: seq<Segment>, c: Segment)
    requires 0 < n < |raw|
    requires segments + [Close(c)] == SegmentsOf(raw, SpansUpTo(Parsed(raw, parse), gap, n))
    requires parse(raw[n].startTime) - parse(raw[n - 1].endTime) > gap
    ensures segments + [Close(c)] + [Close(Segment("", raw[n].startTime, raw[n].endTime, [raw[n].word]))] ==
      SegmentsOf(raw, SpansUpTo(Parsed(raw, parse), gap, n + 1))
  {
    var t := Parsed(raw, parse);
    var before := SpansUpTo(t, gap, n);
    assert BreakAt(t, gap, n);
    var now := before + [Span(n, n)];
    assert SpansUpTo(t, gap, n + 1) == now;
    assert Words(raw[n..n + 1]) == [raw[n].word];
    var ss := SegmentsOf(raw, now);
    assert forall k :: 0 <= k < |before| ==> ss[k] == SegmentsOf(raw, before)[k];
  }

  /** SegmentsOf distributes over appending a span. */
  lemma SegmentsOfAppend(raw: seq<RawWord>, spans: seq<Span>, s: Span)
    requires Bounded(spans, |raw|) && s.first <= s.last < |raw|
    ensures SegmentsOf(raw, spans + [s]) == SegmentsOf(raw, spans) + [SegmentOf(raw, s)]
  {
  }

  lemma SegmentsOfPrefix(raw: seq<RawWord>, spans: seq<Span>, m: nat)
    requires Bounded(spans, |raw|) && m <= |spans|
    ensures SegmentsOf(raw, spans[..m]) == SegmentsOf(raw, spans)[..m]
  {
  }

  /** Adding word n to the open segment of the words f..n-1 gives the segment of the words f..n. */
  lemma WidenSegment(raw: seq<RawWord>, f: nat, n: nat, c: Segment)
    requires f < n < |raw|
    requires Close(c) == SegmentOf(raw, Span(f, n - 1))
    ensures Close(c.(words := c.words + [raw[n].word], endTime := raw[n].endTime)) == SegmentOf(raw, Span(f, n))
  {
    assert raw[f..n + 1] == raw[f..n] + [raw[n]];
    assert Words(raw[f..n + 1]) == Words(raw[f..n]) + [raw[n].word];
  }

  /** A short silence before word n widens the last span of the scan. */
  lemma ScanWidens(raw: seq<RawWord>, parse: string -> real, gap: real, n: nat)
    requires 0 < n < |raw|
    requires !(parse(raw[n].startTime) - parse(raw[n - 1].endTime) > gap)
    ensures var before := SpansUpTo(Parsed(raw, parse), gap, n);
      SpansUpTo(Parsed(raw, parse), gap, n + 1) == before[..|before| - 1] + [Span(before[|before| - 1].first, n)]
  {
    var t := Parsed(raw, parse);
    assert t[n].start == parse(raw[n].startTime) && t[n - 1].end == parse(raw[n - 1].endTime);
    assert !BreakAt(t, gap, n);
  }

  /** Widening the last span by word n adds word n to the open segment. */
  lemma WidenStep(raw: seq<RawWord>, before: seq<Span>, n: nat, segments: seq<Segment>, c: Segment)
    requires 0 < n < |raw| && 0 < |before| && Bounded(before, n) && before[|before| - 1].last == n - 1
    requires segments + [Close(c)] == SegmentsOf(raw, before)
    ensures segments + [Close(c.(words := c.words + [raw[n].word], endTime := raw[n].endTime))] ==
      SegmentsOf(raw, before[..|before| - 1] + [Span(before[|before| - 1].first, n)])
  {
    var m := |before| - 1;
    var all := SegmentsOf(raw, before);
    assert all[m] == Close(c) && all[..m] == segments;
    WidenSegment(raw, before[m].first, n, c);
    SegmentsOfPrefix(raw, before, m);
    SegmentsOfAppend(raw, before[..m], Span(before[m].first, n));
  }

  /** A word after a short silence joins the open segment. */
  lemma ViewerStepWiden(raw: seq<RawWord>, parse: string -> real, gap: real, n: nat, segments: seq<Segment>, c: Segment)
    requires 0 < n < |raw|
    requires segments + [Close(c)] == SegmentsOf(raw, SpansUpTo(Parsed(raw, parse), gap, n))
    requires !(parse(raw[n].startTime) - parse(raw[n - 1].endTime) > gap)
    ensures segments + [Close(c.(words := c.words + [raw[n].word], endTime := raw[n].endTime))] ==
      SegmentsOf(raw, SpansUpTo(Parsed(raw, parse), gap, n + 1))
  {
    ScanWidens(raw, parse, gap, n);
    WidenStep(raw, SpansUpTo(Parsed(raw, parse), gap, n), n, segments, c);
  }

  /** continuousSegments: the loop from word 1 with an open segment, finished after the loop. */
  method ContinuousSegments(raw: seq<RawWord>, parse: string -> real, gap: real) returns (segments: seq<Segment>)
    ensures |raw| == 0 ==> segments == []
    ensures segments == ViewerSegments(raw, parse, gap)
  {
    if |raw| == 0 {
      return [];
    }
    segments := [];
    var currentSegment := Segment("", raw[0].startTime, raw[0].endTime, [raw[0].word]);
    ViewerStepFirst(raw, parse, gap);
    for i := 1 to |raw|
      invariant currentSegment.text == "" && |currentSegment.words| > 0
      invariant segments + [Close(currentSegment)] == SegmentsOf(raw, SpansUpTo(Parsed(raw, parse), gap, i))
    {
      var currentWord := raw[i];
      var previousEndTime := parse(raw[i - 1].endTime);
      var currentStartTime := parse(currentWord.startTime);
      if currentStartTime - previousEndTime > gap {
        ViewerStepOpen(raw, parse, gap, i, segments, currentSegment);
        segments := segments + [currentSegment.(text := Join(currentSegment.words))];
        currentSegment := Segment("", currentWord.startTime, currentWord.endTime, [currentWord.word]);
      } else {
        ViewerStepWiden(raw, parse, gap, i, segments, currentSegment);
        currentSegment := currentSegment.(words := currentSegment.words + [currentWord.word], endTime := currentWord.endTime);
      }
    }
    if |currentSegment.words| > 0 {
      segments := segments + [currentSegment.(text := Join(currentSegment.words))];
    }
  }

  /** The words of each segment. */
  function WordLists(segments: seq<Segment>): (r: seq<seq<string>>)
    ensures |r| == |segments|
    ensures forall k :: 0 <= k < |segments| ==> r[k] == segments[k].words
  {
    seq(|segments|, k requires 0 <= k < |segments| => segments[k].words)
  }

  lemma WordsOfParsed(raw: seq<RawWord>, parse: string -> real, a: nat, b: nat)
    requires a <= b <= |raw|
    ensures Texts(Parsed(raw, parse)[a..b]) == Words(raw[a..b])
  {
  }

  /** Taking the texts of each span's words gives the segments' word lists. */
  lemma RunTexts(raw: seq<RawWord>, parse: string -> real, spans: seq<Span>)
    requires Bounded(spans, |raw|)
    ensures var runs := SpanWords(Parsed(raw, parse), spans);
      seq(|runs|, k requires 0 <= k < |runs| => Texts(runs[k])) == WordLists(SegmentsOf(raw, spans))
  {
    var runs := SpanWords(Parsed(raw, parse), spans);
    forall k | 0 <= k < |spans|
      ensures Texts(runs[k]) == WordLists(SegmentsOf(raw, spans))[k]
    {
      WordsOfParsed(raw, parse, spans[k].first, spans[k].last + 1);
    }
  }

  /** The segments' words concatenate to the transcript's words, in order. */
  lemma ViewerCoversWords(raw: seq<RawWord>, parse: string -> real, gap: real)
    ensures Flatten(WordLists(ViewerSegments(raw, parse, gap))) == Words(raw)
  {
    var t := Parsed(raw, parse);
    var spans := Spans(t, gap);
    SpansCover(t, gap, |t|);
    FlattenTexts(SpanWords(t, spans));
    RunTexts(raw, parse, spans);
    WordsOfParsed(raw, parse, 0, |raw|);
    assert t[..|t|] == t[0..|t|];
    assert raw[0..|raw|] == raw;
  }

  /**
   * Each segment is the run of words of one span of the continuity scan:
   * its text is its words joined by spaces, its times are the strings of its
   * first word's start and last word's end, and the spans split the words at
   * exactly the silences longer than the gap, giving one segment more than
   * there are such silences.
   */
  lemma ViewerSegmentsShape(raw: seq<RawWord>, parse: string -> real, gap: real)
    ensures IsGrouping(Parsed(raw, parse), gap, Spans(Parsed(raw, parse), gap), |raw|)
    ensures |ViewerSegments(raw, parse, gap)| == |Spans(Parsed(raw, parse), gap)|
    ensures |raw| == 0 <==> |ViewerSegments(raw, parse, gap)| == 0
    ensures |raw| > 0 ==> |ViewerSegments(raw, parse, gap)| == 1 + BreakCount(Parsed(raw, parse), gap, |raw|)
    ensures forall k :: 0 <= k < |ViewerSegments(raw, parse, gap)| ==>
      var s := Spans(Parsed(raw, parse), gap)[k];
      var seg := ViewerSegments(raw, parse, gap)[k];
      && s.first <= s.last < |raw|
      && seg.words == Words(raw[s.first..s.last + 1])
      && seg.text == Join(seg.words)
      && seg.startTime == raw[s.first].startTime
      && seg.endTime == raw[s.last].endTime
  {
    var t := Parsed(raw, parse);
    SpansAreGrouping(t, gap, |t|);
    if |raw| > 0 {
      GroupCount(t, gap, |t|);
    }
  }
}
