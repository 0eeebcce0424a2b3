/**
 * src/components/video/TranscriptEditorComponent.tsx: the editor's logic
 * apart from rendering. Words are grouped by a 0.2 s gap; a word is marked
 * when it meets the editor's own membership test against some annotation;
 * clicks select single words, spans between an anchor and a word, or a whole
 * annotation's run of words; a selection can be turned into an annotation
 * that replaces or extends the editing list; and each group's words are cut
 * into display ranges of equal status.
 */
module TranscriptEditor {
  import opened Common
  import opened Continuity
  import TranscriptStore
  import InvalidStore

  /** Words whose silence is at most this many seconds stay in one group. */
  const EditorGap: real := 0.2

  // ---------------------------------------------------------------------
  // Word grouping
  // ---------------------------------------------------------------------

  /** A group of consecutive words with its inclusive index range and time span. */
  datatype WordGroup = WordGroup(words: seq<Word>, startIndex: nat, endIndex: nat, startTime: real, endTime: real)

  /** The group formed by the words of a span. */
  function GroupOf(t: seq<Word>, s: Span): WordGroup
    requires s.first <= s.last < |t|
  {
    WordGroup(t[s.first..s.last + 1], s.first, s.last, t[s.first].start, t[s.last].end)
  }

  function GroupsOf(t: seq<Word>, spans: seq<Span>): (r: seq<WordGroup>)
    requires forall k :: 0 <= k < |spans| ==> spans[k].first <= spans[k].last < |t|
    ensures |r| == |spans|
    ensures forall k :: 0 <= k < |spans| ==> r[k] == GroupOf(t, spans[k])
  {
    seq(|spans|, k requires 0 <= k < |spans| => GroupOf(t, spans[k]))
  }

  /** Specification of the grouping effect: one group per span of the continuity scan. */
  function Grouping(t: seq<Word>, gap: real): seq<WordGroup>
  {
    GroupsOf(t, Spans(t, gap))
  }

  /** The words of each group. */
  function GroupWordLists(groups: seq<WordGroup>): (r: seq<seq<Word>>)
    ensures |r| == |groups|
    ensures forall k :: 0 <= k < |groups| ==> r[k] == groups[k].words
  {
    seq(|groups|, k requires 0 <= k < |groups| => groups[k].words)
  }

  /** The groups' words concatenate to the transcript. */
  lemma GroupingFlattens(t: seq<Word>, gap: real)
    ensures Flatten(GroupWordLists(Grouping(t, gap))) == t
  {
    SpansCover(t, gap, |t|);
    GroupWordsAreSpanWords(t, Spans(t, gap));
    assert t[..|t|] == t;
  }

  lemma GroupWordsAreSpanWords(t: seq<Word>, spans: seq<Span>)
    requires Bounded(spans, |t|)
    ensures GroupWordLists(GroupsOf(t, spans)) == SpanWords(t, spans)
  {
  }

  /**
   * The groups lie end to end over the transcript: the first starts at 0,
   * each starts right after the previous one, the last ends at the last word,
   * and each holds the words of its index range and takes its times from its
   * end words.
   */
  lemma GroupingCovers(t: seq<Word>, gap: real)
    ensures |t| == 0 <==> |Grouping(t, gap)| == 0
    ensures |t| > 0 ==> Grouping(t, gap)[0].startIndex == 0
    ensures |t| > 0 ==> Grouping(t, gap)[|Grouping(t, gap)| - 1].endIndex == |t| - 1
    ensures forall k :: 0 < k < |Grouping(t, gap)| ==>
      Grouping(t, gap)[k].startIndex == Grouping(t, gap)[k - 1].endIndex + 1
    ensures forall k :: 0 <= k < |Grouping(t, gap)| ==> GroupSpansWords(t, Grouping(t, gap)[k])
  {
    SpansAreGrouping(t, gap, |t|);
    GroupsOfCover(t, gap, Spans(t, gap));
  }

  /** A group holds the words from its start index to its end index, and takes its times from its end words. */
  predicate GroupSpansWords(t: seq<Word>, g: WordGroup)
  {
    && g.startIndex <= g.endIndex < |t|
    && g.words == t[g.startIndex..g.endIndex + 1]
    && g.startTime == t[g.startIndex].start
    && g.endTime == t[g.endIndex].end
  }

  lemma GroupsOfCover(t: seq<Word>, gap: real, spans: seq<Span>)
    requires IsGrouping(t, gap, spans, |t|)
    ensures |t| == 0 <==> |GroupsOf(t, spans)| == 0
    ensures |t| > 0 ==> GroupsOf(t, spans)[0].startIndex == 0
    ensures |t| > 0 ==> GroupsOf(t, spans)[|spans| - 1].endIndex == |t| - 1
    ensures forall k :: 0 < k < |spans| ==> GroupsOf(t, spans)[k].startIndex == GroupsOf(t, spans)[k - 1].endIndex + 1
    ensures forall k :: 0 <= k < |spans| ==> GroupSpansWords(t, GroupsOf(t, spans)[k])
  {
  }

  /**
   * Every group after the first opens with a silence longer than the gap, and
   * no group holds one.
   */
  predicate BreaksBetweenGroups(t: seq<Word>, gap: real, groups: seq<WordGroup>)
  {
    && (forall k :: 0 < k < |groups| ==> 0 < groups[k].startIndex < |t| && BreakAt(t, gap, groups[k].startIndex))
    && (forall k, j :: 0 <= k < |groups| && groups[k].startIndex < j <= groups[k].endIndex ==>
          j < |t| && !BreakAt(t, gap, j))
  }

  /**
   * A word continues the current group iff its silence after the group is at
   * most the gap: every group after the first opens with a long silence, no
   * group holds one, and every long silence opens a group.
   */
  lemma GroupingBreaks(t: seq<Word>, gap: real, i: nat)
    requires 0 < i < |t|
    ensures BreaksBetweenGroups(t, gap, Grouping(t, gap))
    ensures BreakAt(t, gap, i) <==> OpensGroup(Grouping(t, gap), i)
  {
    var spans := SpansUpTo(t, gap, |t|);
    SpansAreGrouping(t, gap, |t|);
    if BreakAt(t, gap, i) {
      BreakOpensGroup(t, gap, |t|, i);
    }
    GroupsOfBreaks(t, gap, spans, i);
  }

  /** Some group after the first starts at word i. */
  predicate OpensGroup(groups: seq<WordGroup>, i: nat)
  {
    exists k :: 0 < k < |groups| && groups[k].startIndex == i
  }

  lemma GroupsOfBreaks(t: seq<Word>, gap: real, spans: seq<Span>, i: nat)
    requires 0 < i < |t|
    requires IsGrouping(t, gap, spans, |t|)
    requires BreakAt(t, gap, i) ==> exists k :: 0 < k < |spans| && spans[k].first == i
    ensures BreaksBetweenGroups(t, gap, GroupsOf(t, spans))
    ensures BreakAt(t, gap, i) <==> OpensGroup(GroupsOf(t, spans), i)
  {
    var g := GroupsOf(t, spans);
    if BreakAt(t, gap, i) {
      var k :| 0 < k < |spans| && spans[k].first == i;
      assert g[k].startIndex == i;
    }
  }

  /** A non-empty transcript has one group more than it has silences longer than the gap. */
  lemma GroupingCount(t: seq<Word>, gap: real)
    requires |t| > 0
    ensures |Grouping(t, gap)| == 1 + BreakCount(t, gap, |t|)
  {
    GroupCount(t, gap, |t|);
  }

  /** The first word opens the first group. */
  lemma GroupStepFirst(t: seq<Word>, gap: real)
    requires 0 < |t|
    ensures [WordGroup([t[0]], 0, 0, t[0].start, t[0].end)] == GroupsOf(t, SpansUpTo(t, gap, 1))
  {
    assert SpansUpTo(t, gap, 1) == [Span(0, 0)];
    assert t[0..1] == [t[0]];
  }

  /** A word after a long silence closes the open group and opens a new one. */
  lemma GroupStepOpen(t: seq<Word>, gap: real, n: nat, groups: seq<WordGroup>, g: WordGroup)
    requires 0 < n < |t|
    requires groups + [g] == GroupsOf(t, SpansUpTo(t, gap, n))
    requires t[n].start - g.endTime > gap
    ensures groups + [g] + [WordGroup([t[n]], n, n, t[n].start, t[n].end)] == GroupsOf(t, SpansUpTo(t, gap, n + 1))
  {
    var before := SpansUpTo(t, gap, n);
    assert g == GroupOf(t, before[|before| - 1]);
    assert BreakAt(t, gap, n);
    var now := before + [Span(n, n)];
    assert SpansUpTo(t, gap, n + 1) == now;
    assert t[n..n + 1] == [t[n]];
    var gs := GroupsOf(t, now);
    assert forall k :: 0 <= k < |before| ==> gs[k] == GroupsOf(t, before)[k];
  }

  /** A word after a short silence joins the open group. */
  lemma GroupStepWiden(t: seq<Word>, gap: real, n: nat, groups: seq<WordGroup>, g: WordGroup)
    requires 0 < n < |t|
    requires groups + [g] == GroupsOf(t, SpansUpTo(t, gap, n))
    requires t[n].start - g.endTime <= gap
    ensures groups + [g.(words := g.words + [t[n]], endIndex := n, endTime := t[n].end)] ==
      GroupsOf(t, SpansUpTo(t, gap, n + 1))
  {
    var before := SpansUpTo(t, gap, n);
    var m := |before| - 1;
    assert !BreakAt(t, gap, n);
    assert SpansUpTo(t, gap, n + 1) == before[..m] + [Span(before[m].first, n)];
    WidenLastGroup(t, before, n, groups, g);
  }

  /** Extending the last span to word n extends the last group by that word. */
  lemma WidenLastGroup(t: seq<Word>, before: seq<Span>, n: nat, groups: seq<WordGroup>, g: WordGroup)
    requires 0 < n < |t| && |before| > 0 && Bounded(before, n)
    requires before[|before| - 1].last == n - 1
    requires groups + [g] == GroupsOf(t, before)
    ensures groups + [g.(words := g.words + [t[n]], endIndex := n, endTime := t[n].end)] ==
      GroupsOf(t, before[..|before| - 1] + [Span(before[|before| - 1].first, n)])
  {
    var m := |before| - 1;
    var f := before[m].first;
    var gb := GroupsOf(t, before);
    assert gb[m] == g;
    var now := before[..m] + [Span(f, n)];
    var wide := g.(words := g.words + [t[n]], endIndex := n, endTime := t[n].end);
    assert t[f..n + 1] == t[f..n] + [t[n]];
    var gs := GroupsOf(t, now);
    assert gs[m] == wide;
    forall k | 0 <= k < m
      ensures gs[k] == groups[k]
    {
      assert now[k] == before[k];
      assert gb[k] == groups[k];
    }
    assert gs == groups + [wide];
  }

  /** The grouping effect's forEach over the transcript, with an optional open group. */
  method GroupWords(t: seq<Word>, gap: real) returns (groups: seq<WordGroup>)
    ensures groups == Grouping(t, gap)
  {
    groups := [];
    var currentGroup: Option<WordGroup> := None;
    for index := 0 to |t|
      invariant index == 0 <==> currentGroup.None?
      invariant currentGroup.None? ==> groups == []
      invariant currentGroup.Some? ==> groups + [currentGroup.value] == GroupsOf(t, SpansUpTo(t, gap, index))
    {
      var wordObj := t[index];
      if currentGroup.None? {
        GroupStepFirst(t, gap);
        currentGroup := Some(WordGroup([wordObj], index, index, wordObj.start, wordObj.end));
      } else {
        var g := currentGroup.value;
        var timeDiff := wordObj.start - g.endTime;
        if timeDiff <= gap {
          GroupStepWiden(t, gap, index, groups, g);
          currentGroup := Some(g.(words := g.words + [wordObj], endIndex := index, endTime := wordObj.end));
        } else {
          GroupStepOpen(t, gap, index, groups, g);
          groups := groups + [g];
          currentGroup := Some(WordGroup([wordObj], index, index, wordObj.start, wordObj.end));
        }
      }
    }
    if currentGroup.Some? {
      groups := groups + [currentGroup.value];
    }
  }

  // ---------------------------------------------------------------------
  // Membership and the two lookups
  // ---------------------------------------------------------------------

  /** The editor's membership test (lines 222-226): start in [s, e), end in (s, e], or the word covers [s, e]. */
  predicate InSegment(w: Word, seg: Invalid)
  {
    (w.start >= seg.startTime && w.start < seg.endTime) ||
    (w.end > seg.startTime && w.end <= seg.endTime) ||
    (w.start <= seg.startTime && w.end >= seg.endTime)
  }

  /** isWordInInvalidSegment: some annotation contains word i under the editor's test. */
  predicate IsWordInInvalidSegment(t: seq<Word>, segs: seq<Invalid>, i: nat)
    requires i < |t|
  {
    exists k :: 0 <= k < |segs| && InSegment(t[i], segs[k])
  }

  /** The result of getInvalidSegmentInfoForWord: both fields are null, or both are set. */
  datatype SegmentInfo = SegmentInfo(kind: Option<SegmentKind>, index: Option<nat>)

  /** The lowest-indexed annotation containing word i, with its kind. */
  function SegmentInfoFor(t: seq<Word>, segs: seq<Invalid>, i: nat): (r: SegmentInfo)
    requires i < |t|
    ensures r.index.Some? <==> r.kind.Some?
    ensures r.index.Some? ==>
      && r.index.value < |segs|
      && InSegment(t[i], segs[r.index.value])
      && r.kind == Some(segs[r.index.value].kind)
      && forall j :: 0 <= j < r.index.value ==> !InSegment(t[i], segs[j])
    ensures r.index.None? ==> forall j :: 0 <= j < |segs| ==> !InSegment(t[i], segs[j])
  {
    match FindIndex(segs, seg => InSegment(t[i], seg))
    case None => SegmentInfo(None, None)
    case Some(k) => SegmentInfo(Some(segs[k].kind), Some(k))
  }

  /** The two lookups agree: a word is marked iff the info lookup finds an index. */
  lemma LookupsAgree(t: seq<Word>, segs: seq<Invalid>, i: nat)
    requires i < |t|
    ensures IsWordInInvalidSegment(t, segs, i) <==> SegmentInfoFor(t, segs, i).index.Some?
  {
    var r := SegmentInfoFor(t, segs, i);
    if r.index.Some? {
      assert InSegment(t[i], segs[r.index.value]);
    }
  }

  /** getInvalidSegmentInfoForWord: the loop returning at the first containing annotation. */
  method GetInvalidSegmentInfoForWord(t: seq<Word>, segs: seq<Invalid>, wordIndex: nat) returns (info: SegmentInfo)
    requires wordIndex < |t|
    ensures info == SegmentInfoFor(t, segs, wordIndex)
  {
    for i := 0 to |segs|
      invariant forall j :: 0 <= j < i ==> !InSegment(t[wordIndex], segs[j])
    {
      var segment := segs[i];
      var wordStartTime := t[wordIndex].start;
      var wordEndTime := t[wordIndex].end;
      if (wordStartTime >= segment.startTime && wordStartTime < segment.endTime) ||
         (wordEndTime > segment.startTime && wordEndTime <= segment.endTime) ||
         (wordStartTime <= segment.startTime && wordEndTime >= segment.endTime)
      {
        return SegmentInfo(Some(segment.kind), Some(i));
      }
    }
    return SegmentInfo(None, None);
  }

  /** The word-index pair of findWordIndicesInInvalidSegment, -1 meaning none. */
  datatype WordRange = WordRange(startIndex: int, endIndex: int)

  /** The last index of the run of words in `seg` that continues from word i. */
  function RunEnd(t: seq<Word>, seg: Invalid, i: nat): (e: nat)
    requires i < |t|
    ensures i <= e < |t|
    ensures forall j :: i < j <= e ==> InSegment(t[j], seg)
    ensures e + 1 < |t| ==> !InSegment(t[e + 1], seg)
    decreases |t| - i
  {
    if i + 1 < |t| && InSegment(t[i + 1], seg) then RunEnd(t, seg, i + 1) else i
  }

  /**
   * Specification of findWordIndicesInInvalidSegment: (-1, -1) for an index
   * outside the list or an annotation no word meets; otherwise the first
   * maximal run of consecutive words meeting the editor's test.
   */
  function FirstRun(t: seq<Word>, segs: seq<Invalid>, segIndex: int): (r: WordRange)
    ensures r.startIndex == -1 <==> r.endIndex == -1
    ensures r.startIndex == -1 <==>
      !(0 <= segIndex < |segs|) || forall j :: 0 <= j < |t| ==> !InSegment(t[j], segs[segIndex])
    ensures r.startIndex != -1 ==>
      && 0 <= segIndex < |segs|
      && 0 <= r.startIndex <= r.endIndex < |t|
      && (forall j :: 0 <= j < r.startIndex ==> !InSegment(t[j], segs[segIndex]))
      && (forall j :: r.startIndex <= j <= r.endIndex ==> InSegment(t[j], segs[segIndex]))
      && (r.endIndex + 1 < |t| ==> !InSegment(t[r.endIndex + 1], segs[segIndex]))
      && r.endIndex == RunEnd(t, segs[segIndex], r.startIndex)
  {
    if !(0 <= segIndex < |segs|) then WordRange(-1, -1)
    else match FindIndex(t, w => InSegment(w, segs[segIndex]))
      case None => WordRange(-1, -1)
      case Some(s) => WordRange(s, RunEnd(t, segs[segIndex], s))
  }

  /** The forward scan of findWordIndicesInInvalidSegment, leaving the loop after the first run. */
  method FindWordIndicesInInvalidSegment(t: seq<Word>, segs: seq<Invalid>, segmentIndex: int) returns (r: WordRange)
    ensures r == FirstRun(t, segs, segmentIndex)
  {
    if !(0 <= segmentIndex < |segs|) {
      return WordRange(-1, -1);
    }
    var segment := segs[segmentIndex];
    var startIndex: int := -1;
    var endIndex: int := -1;
    var i := 0;
    while i < |t|
      invariant 0 <= i <= |t|
      invariant startIndex == -1 <==> endIndex == -1
      invariant startIndex == -1 ==> forall j :: 0 <= j < i ==> !InSegment(t[j], segment)
      invariant startIndex != -1 ==>
        && 0 <= startIndex <= endIndex && endIndex == i - 1
        && (forall j :: 0 <= j < startIndex ==> !InSegment(t[j], segment))
        && (forall j :: startIndex <= j <= endIndex ==> InSegment(t[j], segment))
    {
      var isInSegment :=
        (t[i].start >= segment.startTime && t[i].start < segment.endTime) ||
        (t[i].end > segment.startTime && t[i].end <= segment.endTime) ||
        (t[i].start <= segment.startTime && t[i].end >= segment.endTime);
      if isInSegment {
        if startIndex == -1 {
          startIndex := i;
        }
        endIndex := i;
      } else if endIndex != -1 {
        break;
      }
      i := i + 1;
    }
    r := WordRange(startIndex, endIndex);
    ghost var spec := FirstRun(t, segs, segmentIndex);
    if startIndex == -1 {
      assert i == |t|;
      assert spec.startIndex == -1;
    } else {
      assert InSegment(t[startIndex], segment);
      assert spec.startIndex != -1;
      assert spec.startIndex == startIndex;
      RunEndUnique(t, segment, startIndex, endIndex);
      assert spec.endIndex == endIndex;
    }
  }

  /** A run from i that ends where the next word fails the test (or the transcript ends) is the run RunEnd finds. */
  lemma {:induction false} RunEndUnique(t: seq<Word>, seg: Invalid, i: int, e: int)
    requires i != -1 ==> 0 <= i <= e < |t|
    requires i != -1 ==> forall j :: i <= j <= e ==> InSegment(t[j], seg)
    requires i != -1 ==> e + 1 < |t| ==> !InSegment(t[e + 1], seg)
    ensures i != -1 ==> RunEnd(t, seg, i) == e
    decreases e - i
  {
    if i != -1 && i < e {
      RunEndUnique(t, seg, i + 1, e);
    }
  }

  // ---------------------------------------------------------------------
  // Selection
  // ---------------------------------------------------------------------

  /** The selected range: inclusive word indices and the times of its end words. */
  datatype Range = Range(startIndex: nat, endIndex: nat, startTime: real, endTime: real)

  /** The editor's selection state: the selected range and the annotation it came from. */
  datatype Selection = Selection(range: Option<Range>, invalidIndex: Option<nat>)

  const NoSelection: Selection := Selection(None, None)

  function RangeOf(t: seq<Word>, s: nat, e: nat): Range
    requires s <= e < |t|
  {
    Range(s, e, t[s].start, t[e].end)
  }

  /** A selected range lies inside the transcript. */
  predicate ValidRange(t: seq<Word>, r: Option<Range>)
  {
    r.Some? ==> r.value.startIndex <= r.value.endIndex < |t|
  }

  function Min(a: nat, b: nat): nat { if a <= b then a else b }
  function Max(a: nat, b: nat): nat { if a <= b then b else a }

  /** Specification of handleWordClick: the selection after a click on word i. */
  function Click(t: seq<Word>, segs: seq<Invalid>, sel: Selection, i: nat): (r: Selection)
    requires i < |t| && ValidRange(t, sel.range)
    ensures ValidRange(t, r.range)
  {
    var info := SegmentInfoFor(t, segs, i);
    if info.index.Some? then
      var run := FirstRun(t, segs, info.index.value);
      if run.startIndex != -1 && run.endIndex != -1 then
        Selection(Some(RangeOf(t, run.startIndex, run.endIndex)), info.index)
      else sel
    else if sel.range.None? then
      Selection(Some(RangeOf(t, i, i)), None)
    else if sel.range.value.startIndex == i && sel.range.value.endIndex == i then
      NoSelection
    else
      var anchor := sel.range.value.startIndex;
      Selection(Some(RangeOf(t, Min(anchor, i), Max(anchor, i))), None)
  }

  /**
   * Clicking a marked word selects the whole first run of the lowest
   * annotation containing it and records that annotation; the run starts no
   * later than the clicked word.
   */
  lemma ClickInsideSelectsRun(t: seq<Word>, segs: seq<Invalid>, sel: Selection, i: nat)
    requires i < |t| && ValidRange(t, sel.range)
    requires IsWordInInvalidSegment(t, segs, i)
    ensures Click(t, segs, sel, i).invalidIndex.Some?
    ensures Click(t, segs, sel, i).range.Some?
    ensures var k := Click(t, segs, sel, i).invalidIndex.value;
      var r := Click(t, segs, sel, i).range.value;
      && k < |segs| && InSegment(t[i], segs[k])
      && (forall j :: 0 <= j < k ==> !InSegment(t[i], segs[j]))
      && r.startIndex <= i
      && r == RangeOf(t, FirstRun(t, segs, k).startIndex, FirstRun(t, segs, k).endIndex)
      && (forall j :: r.startIndex <= j <= r.endIndex ==> InSegment(t[j], segs[k]))
  {
    LookupsAgree(t, segs, i);
  }

  /**
   * Clicking an unmarked word clears the annotation index and: with nothing
   * selected selects that word; on the sole selected word clears the
   * selection; otherwise selects from the anchor (the range's start) to the
   * word, whichever comes first.
   */
  lemma ClickOutside(t: seq<Word>, segs: seq<Invalid>, sel: Selection, i: nat)
    requires i < |t| && ValidRange(t, sel.range)
    requires !IsWordInInvalidSegment(t, segs, i)
    ensures Click(t, segs, sel, i).invalidIndex == None
    ensures sel.range.None? ==> Click(t, segs, sel, i).range == Some(RangeOf(t, i, i))
    ensures sel.range.Some? && sel.range.value.startIndex == i == sel.range.value.endIndex ==>
      Click(t, segs, sel, i).range == None
    ensures sel.range.Some? && !(sel.range.value.startIndex == i == sel.range.value.endIndex) ==>
      var a := sel.range.value.startIndex;
      var r := Click(t, segs, sel, i).range;
      && r.Some?
      && r.value.startIndex <= a <= r.value.endIndex
      && r.value.startIndex <= i <= r.value.endIndex
      && (r.value.startIndex == a || r.value.startIndex == i)
      && (r.value.endIndex == a || r.value.endIndex == i)
      && r.value.startTime == t[r.value.startIndex].start
      && r.value.endTime == t[r.value.endIndex].end
  {
    LookupsAgree(t, segs, i);
  }

  /** Clicking the same unmarked word twice from an empty selection leaves nothing selected. */
  lemma ClickTwiceDeselects(t: seq<Word>, segs: seq<Invalid>, i: nat)
    requires i < |t|
    requires !IsWordInInvalidSegment(t, segs, i)
    ensures Click(t, segs, Click(t, segs, NoSelection, i), i) == NoSelection
  {
    LookupsAgree(t, segs, i);
  }

  /** Clicking unmarked word a and then unmarked word b /= a selects exactly the words between them. */
  lemma ClickThenClickSpans(t: seq<Word>, segs: seq<Invalid>, a: nat, b: nat)
    requires a < |t| && b < |t| && a != b
    requires !IsWordInInvalidSegment(t, segs, a) && !IsWordInInvalidSegment(t, segs, b)
    ensures Click(t, segs, Click(t, segs, NoSelection, a), b) ==
      Selection(Some(RangeOf(t, Min(a, b), Max(a, b))), None)
  {
    LookupsAgree(t, segs, a);
    LookupsAgree(t, segs, b);
  }

  // ---------------------------------------------------------------------
  // Turning the selection into an annotation
  // ---------------------------------------------------------------------

  /** The annotation built from a selected range: its times, indices and joined text. */
  function NewSegment(t: seq<Word>, r: Range, kind: SegmentKind): (s: Invalid)
    ensures ValidRange(t, Some(r)) ==> s.text == Some(Join(Texts(t[r.startIndex..r.endIndex + 1])))
    ensures s.startTime == r.startTime && s.endTime == r.endTime && s.kind == kind && !s.isEntire
    ensures s.startIndex == Some(r.startIndex) && s.endIndex == Some(r.endIndex)
  {
    Invalid(r.startTime, r.endTime, kind, false,
      Some(Join(Texts(Slice(t, r.startIndex, r.endIndex + 1)))),
      Some(r.startIndex), Some(r.endIndex))
  }

  /** The new list: the entry at `index` replaced when an index is given, otherwise the segment appended. */
  function Placed(segs: seq<Invalid>, seg: Invalid, index: Option<nat>): (r: seq<Invalid>)
    requires index.Some? ==> index.value < |segs|
    ensures index.Some? ==> |r| == |segs| && r[index.value] == seg
    ensures index.Some? ==> forall j :: 0 <= j < |segs| && j != index.value ==> r[j] == segs[j]
    ensures index.None? ==> |r| == |segs| + 1 && r[..|segs|] == segs && r[|segs|] == seg
  {
    if index.Some? then segs[index.value := seg] else segs + [seg]
  }

  // ---------------------------------------------------------------------
  // Display ranges
  // ---------------------------------------------------------------------

  /** A word's display status: selected, marked with an annotation kind, or plain. */
  datatype Status = Selected | Marked(kind: SegmentKind) | Unmarked

  /** A word's status and the annotation it belongs to (null when it is not marked). */
  datatype Label = Label(status: Status, segmentId: Option<nat>)

  /** The status of global word g: selection wins over marking. */
  function WordLabel(t: seq<Word>, segs: seq<Invalid>, range: Option<Range>, g: nat): (l: Label)
    requires g < |t|
    ensures l.status == Selected <==> range.Some? && range.value.startIndex <= g <= range.value.endIndex
    ensures l.segmentId.Some? <==> IsWordInInvalidSegment(t, segs, g)
    ensures l.segmentId == SegmentInfoFor(t, segs, g).index
    ensures l.status.Marked? ==>
      l.segmentId.Some? && l.segmentId.value < |segs| && l.status.kind == segs[l.segmentId.value].kind
  {
    var isSelected := range.Some? && range.value.startIndex <= g <= range.value.endIndex;
    var info := SegmentInfoFor(t, segs, g);
    LookupsAgree(t, segs, g);
    Label(
      if isSelected then Selected else if info.kind.Some? then Marked(info.kind.value) else Unmarked,
      if info.kind.Some? then info.index else None)
  }

  /** The label as the display builder computes it from the selection test and the info lookup. */
  lemma WordLabelFromInfo(t: seq<Word>, segs: seq<Invalid>, range: Option<Range>, g: nat, isSelected: bool, info: SegmentInfo)
    requires g < |t|
    requires isSelected == (range.Some? && g >= range.value.startIndex && g <= range.value.endIndex)
    requires info == SegmentInfoFor(t, segs, g)
    ensures WordLabel(t, segs, range, g) ==
      Label(if isSelected then Selected else if info.kind.Some? then Marked(info.kind.value) else Unmarked,
            if info.kind.Some? then info.index else None)
  {
  }

  /** The labels of a group's words, at their positions within the group. */
  function GroupLabels(t: seq<Word>, segs: seq<Invalid>, range: Option<Range>, group: WordGroup): (r: seq<Label>)
    requires group.startIndex + |group.words| <= |t|
    ensures |r| == |group.words|
    ensures forall w :: 0 <= w < |r| ==> r[w] == WordLabel(t, segs, range, group.startIndex + w)
  {
    seq(|group.words|, w requires 0 <= w < |group.words| => WordLabel(t, segs, range, group.startIndex + w))
  }

  /** A word joins the current range when it has the range's status and, unless selected, its segment. */
  predicate Joins(current: Label, next: Label)
  {
    current.status == next.status && (next.status == Selected || current.segmentId == next.segmentId)
  }

  /** A display range: positions start..end within the group, with the label of its first word. */
  datatype DisplayRange = DisplayRange(start: nat, end: nat, head: Label)

  /**
   * `ranges` cuts positions 0..n-1 into consecutive non-empty ranges, each
   * labelled by its first word, each of whose words joins it, and each of
   * which the next range's first word does not join.
   */
  predicate IsRunSplit(ranges: seq<DisplayRange>, labels: seq<Label>, n: nat)
    requires n <= |labels|
  {
    && (n == 0 <==> |ranges| == 0)
    && (n > 0 ==> ranges[0].start == 0 && ranges[|ranges| - 1].end == n - 1)
    && (forall k :: 0 <= k < |ranges| ==> ranges[k].start <= ranges[k].end < n && ranges[k].head == labels[ranges[k].start])
    && (forall k :: 0 < k < |ranges| ==> ranges[k].start == ranges[k - 1].end + 1)
    && (forall k, w :: 0 <= k < |ranges| && ranges[k].start < w <= ranges[k].end ==> Joins(ranges[k].head, labels[w]))
    && (forall k :: 0 < k < |ranges| ==> !Joins(ranges[k - 1].head, labels[ranges[k].start]))
  }

  lemma SplitFirst(labels: seq<Label>)
    requires 0 < |labels|
    ensures IsRunSplit([] + [DisplayRange(0, 0, labels[0])], labels, 1)
  {
  }

  lemma SplitOpen(ranges: seq<DisplayRange>, current: DisplayRange, labels: seq<Label>, n: nat)
    requires 0 < n < |labels|
    requires IsRunSplit(ranges + [current], labels, n)
    requires !Joins(current.head, labels[n])
    ensures IsRunSplit(ranges + [current] + [DisplayRange(n, n, labels[n])], labels, n + 1)
  {
    var before := ranges + [current];
    var now := before + [DisplayRange(n, n, labels[n])];
    assert forall k :: 0 <= k < |before| ==> now[k] == before[k];
  }

  lemma SplitWiden(ranges: seq<DisplayRange>, current: DisplayRange, labels: seq<Label>, n: nat)
    requires 0 < n < |labels|
    requires IsRunSplit(ranges + [current], labels, n)
    requires Joins(current.head, labels[n])
    ensures IsRunSplit(ranges + [current.(end := n)], labels, n + 1)
  {
    var before := ranges + [current];
    var m := |ranges|;
    assert ranges + [current.(end := n)] == before[m := current.(end := n)];
    WidenLastRange(before, labels, n);
  }

  lemma WidenLastRange(before: seq<DisplayRange>, labels: seq<Label>, n: nat)
    requires 0 < n < |labels| && |before| > 0
    requires IsRunSplit(before, labels, n)
    requires Joins(before[|before| - 1].head, labels[n])
    ensures IsRunSplit(before[|before| - 1 := before[|before| - 1].(end := n)], labels, n + 1)
  {
    var m := |before| - 1;
    var now := before[m := before[m].(end := n)];
    forall k, w | 0 <= k < |now| && now[k].start < w <= now[k].end
      ensures Joins(now[k].head, labels[w])
    {
      if k == m && w == n {
      } else {
        assert before[k].start < w <= before[k].end;
      }
    }
  }

  /** The per-word status and segment id the display builder computes. */
  method ComputeWordLabel(t: seq<Word>, segs: seq<Invalid>, range: Option<Range>, globalIndex: nat)
    returns (wordLabel: Label)
    requires globalIndex < |t|
    ensures wordLabel == WordLabel(t, segs, range, globalIndex)
  {
    var isSelected := range.Some? && globalIndex >= range.value.startIndex && globalIndex <= range.value.endIndex;
    var info := GetInvalidSegmentInfoForWord(t, segs, globalIndex);
    var currentStatus :=
      if isSelected then Selected else if info.kind.Some? then Marked(info.kind.value) else Unmarked;
    var currentSegmentId := if info.kind.Some? then info.index else None;
    wordLabel := Label(currentStatus, currentSegmentId);
    WordLabelFromInfo(t, segs, range, globalIndex, isSelected, info);
  }

  /**
   * The display-range builder for one group: each word's label is computed
   * from the selection and the info lookup, and extends the current range
   * when it joins it, otherwise closes it and opens a new one.
   */
  method BuildDisplayRanges(t: seq<Word>, segs: seq<Invalid>, range: Option<Range>, group: WordGroup)
    returns (ranges: seq<DisplayRange>)
    requires group.startIndex + |group.words| <= |t|
    ensures IsRunSplit(ranges, GroupLabels(t, segs, range, group), |group.words|)
  {
    ghost var labels := GroupLabels(t, segs, range, group);
    ranges := [];
    var currentRange: Option<DisplayRange> := None;
    for wordIndex := 0 to |group.words|
      invariant wordIndex == 0 <==> currentRange.None?
      invariant currentRange.None? ==> ranges == []
      invariant currentRange.Some? ==> IsRunSplit(ranges + [currentRange.value], labels, wordIndex)
    {
      var wordLabel := ComputeWordLabel(t, segs, range, group.startIndex + wordIndex);
      var currentStatus, currentSegmentId := wordLabel.status, wordLabel.segmentId;
      assert wordLabel == labels[wordIndex];
      if currentRange.None? {
        SplitFirst(labels);
        currentRange := Some(DisplayRange(wordIndex, wordIndex, wordLabel));
      } else if currentRange.value.head.status == currentStatus &&
                (currentStatus == Selected || currentRange.value.head.segmentId == currentSegmentId)
      {
        SplitWiden(ranges, currentRange.value, labels, wordIndex);
        currentRange := Some(currentRange.value.(end := wordIndex));
      } else {
        SplitOpen(ranges, currentRange.value, labels, wordIndex);
        ranges := ranges + [currentRange.value];
        currentRange := Some(DisplayRange(wordIndex, wordIndex, wordLabel));
      }
    }
    if currentRange.Some? {
      ranges := ranges + [currentRange.value];
    }
  }

  // ---------------------------------------------------------------------
  // The editor's state
  // ---------------------------------------------------------------------

  /** The editor component's state over the transcript store and the annotation store. */
  class Editor {
    const transcriptStore: TranscriptStore.Store
    const invalidStore: InvalidStore.Store
    var wordGroups: seq<WordGroup>
    var selection: Selection

    constructor (words: TranscriptStore.Store, annotations: InvalidStore.Store)
      ensures transcriptStore == words && invalidStore == annotations
      ensures wordGroups == [] && selection == NoSelection
    {
      transcriptStore := words;
      invalidStore := annotations;
      wordGroups := [];
      selection := NoSelection;
    }

    /** The grouping effect: regroup a non-empty transcript; an empty one leaves the groups as they were. */
    method OnTranscriptChange()
      modifies this
      ensures |transcriptStore.transcript| == 0 ==> wordGroups == old(wordGroups)
      ensures |transcriptStore.transcript| > 0 ==> wordGroups == Grouping(transcriptStore.transcript, EditorGap)
      ensures selection == old(selection)
    {
      var transcript := transcriptStore.transcript;
      if |transcript| == 0 {
        return;
      }
      wordGroups := GroupWords(transcript, EditorGap);
    }

    /** handleWordClick on global word index `globalIndex`. */
    method HandleWordClick(globalIndex: nat)
      requires globalIndex < |transcriptStore.transcript|
      requires ValidRange(transcriptStore.transcript, selection.range)
      modifies this
      ensures selection == Click(transcriptStore.transcript, invalidStore.editing, old(selection), globalIndex)
      ensures wordGroups == old(wordGroups)
    {
      var transcript := transcriptStore.transcript;
      var info := GetInvalidSegmentInfoForWord(transcript, invalidStore.editing, globalIndex);
      if info.index.Some? {
        var run := FindWordIndicesInInvalidSegment(transcript, invalidStore.editing, info.index.value);
        if run.startIndex != -1 && run.endIndex != -1 {
          selection := Selection(
            Some(Range(run.startIndex, run.endIndex, transcript[run.startIndex].start, transcript[run.endIndex].end)),
            info.index);
        }
      } else {
        selection := selection.(invalidIndex := None);
        if selection.range.None? {
          selection := selection.(range := Some(Range(globalIndex, globalIndex,
            transcript[globalIndex].start, transcript[globalIndex].end)));
        } else if selection.range.value.startIndex == globalIndex && selection.range.value.endIndex == globalIndex {
          selection := selection.(range := None);
        } else {
          var newStartIndex := Min(selection.range.value.startIndex, globalIndex);
          var newEndIndex := Max(selection.range.value.startIndex, globalIndex);
          selection := selection.(range := Some(Range(newStartIndex, newEndIndex,
            transcript[newStartIndex].start, transcript[newEndIndex].end)));
        }
      }
    }

    /**
     * addInvalidSegment: with a selection, build the annotation, replace the
     * selected annotation or append it, and clear the selection; without a
     * selection nothing changes.
     */
    method AddInvalidSegment(kind: SegmentKind)
      requires selection.invalidIndex.Some? ==> selection.invalidIndex.value < |invalidStore.editing|
      modifies this, invalidStore
      ensures old(selection).range.None? ==>
        invalidStore.editing == old(invalidStore.editing) && selection == old(selection)
      ensures old(selection).range.Some? ==>
        && invalidStore.editing == Placed(old(invalidStore.editing),
             NewSegment(transcriptStore.transcript, old(selection).range.value, kind), old(selection).invalidIndex)
        && selection == NoSelection
      ensures invalidStore.apiResponse == old(invalidStore.apiResponse)
      ensures invalidStore.saveCheckpoint == old(invalidStore.saveCheckpoint)
      ensures wordGroups == old(wordGroups)
    {
      if selection.range.Some? {
        var r := selection.range.value;
        var selectedText := Join(Texts(Slice(transcriptStore.transcript, r.startIndex, r.endIndex + 1)));
        var newSegment := Invalid(r.startTime, r.endTime, kind, false, Some(selectedText), Some(r.startIndex), Some(r.endIndex));
        if selection.invalidIndex.Some? {
          var updatedSegments := invalidStore.editing;
          updatedSegments := updatedSegments[selection.invalidIndex.value := newSegment];
          invalidStore.SetEditing(updatedSegments);
        } else {
          invalidStore.SetEditing(invalidStore.editing + [newSegment]);
        }
        selection := NoSelection;
      }
    }
  }
}
