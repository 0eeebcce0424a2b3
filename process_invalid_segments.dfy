/**
 * src/utils/processInvalidSegments.ts: mapping time-interval annotations to
 * word-index ranges, the filler-word and long-pause detectors, and the merge
 * of detected candidates into an existing annotation list.
 */
module ProcessInvalidSegments {
  import opened Common

  // ---------------------------------------------------------------------
  // Segment-to-index mapping
  // ---------------------------------------------------------------------

  /** The start-word test: the word starts in [start, end), or is ongoing at start. */
  predicate StartsSegment(w: Word, seg: Invalid)
  {
    (w.start >= seg.startTime && w.start < seg.endTime) ||
    (w.start < seg.startTime && w.end > seg.startTime)
  }

  /** The end-word test of the forward scan. */
  predicate ExtendsSegment(w: Word, seg: Invalid)
  {
    (w.start <= seg.endTime && w.end > seg.startTime) ||
    (w.start >= seg.startTime && w.start < seg.endTime)
  }

  /** The forward scan stops at the first word that starts after the segment ends. */
  predicate PastSegment(w: Word, seg: Invalid)
  {
    w.start > seg.endTime
  }

  /** The first word index satisfying the start-word test, if any. */
  function StartIndex(seg: Invalid, t: seq<Word>): (r: Option<nat>)
    ensures r.Some? ==> r.value < |t| && StartsSegment(t[r.value], seg)
    ensures r.Some? ==> forall j :: 0 <= j < r.value ==> !StartsSegment(t[j], seg)
    ensures r.None? ==> forall j :: 0 <= j < |t| ==> !StartsSegment(t[j], seg)
  {
    FindIndex(t, w => StartsSegment(w, seg))
  }

  /** Where the forward scan from `from` stops: the first later word past the segment, or |t|. */
  function Cutoff(seg: Invalid, t: seq<Word>, from: nat): (c: nat)
    requires from <= |t|
    ensures from <= c <= |t|
    ensures forall k :: from <= k < c ==> !PastSegment(t[k], seg)
    ensures c < |t| ==> PastSegment(t[c], seg)
  {
    match FindIndex(t[from..], w => PastSegment(w, seg))
    case None => |t|
    case Some(k) => from + k
  }

  /**
   * `e` is the end index for a scan beginning at `from`: the last index before
   * the cutoff whose word passes the end-word test, or `from` when none does.
   */
  predicate IsEndIndex(seg: Invalid, t: seq<Word>, from: nat, e: nat)
    requires from < |t|
  {
    var c := Cutoff(seg, t, from);
    from <= e < |t| &&
    (e == from || (e < c && ExtendsSegment(t[e], seg))) &&
    (forall k :: e < k < c ==> !ExtendsSegment(t[k], seg))
  }

  /** Downward search from `j` for the last word passing the end-word test. */
  function LastExtending(seg: Invalid, t: seq<Word>, from: nat, j: int): (r: nat)
    requires from < |t| && from - 1 <= j < |t|
    ensures from <= r < |t|
    ensures r == from || (r <= j && ExtendsSegment(t[r], seg))
    ensures forall k :: r < k <= j ==> !ExtendsSegment(t[k], seg)
    decreases j
  {
    if j <= from then from
    else if ExtendsSegment(t[j], seg) then j
    else LastExtending(seg, t, from, j - 1)
  }

  /** Reference definition of the end index: search down from just below the cutoff. */
  function EndIndex(seg: Invalid, t: seq<Word>, from: nat): (e: nat)
    requires from < |t|
    ensures IsEndIndex(seg, t, from, e)
  {
    LastExtending(seg, t, from, Cutoff(seg, t, from) - 1)
  }

  /** At most one index satisfies IsEndIndex. */
  lemma EndIndexUnique(seg: Invalid, t: seq<Word>, from: nat, e1: nat, e2: nat)
    requires from < |t|
    requires IsEndIndex(seg, t, from, e1) && IsEndIndex(seg, t, from, e2)
    ensures e1 == e2
  {
  }

  /** The forward `for` loop with `break` that computes the end index. */
  method FindEndIndex(seg: Invalid, t: seq<Word>, from: nat) returns (e: nat)
    requires from < |t|
    ensures e == EndIndex(seg, t, from)
  {
    e := from;
    var i := from;
    while i < |t|
      invariant from <= i <= |t|
      invariant forall k :: from <= k < i ==> !PastSegment(t[k], seg)
      invariant from <= e < |t|
      invariant e == from || (e < i && ExtendsSegment(t[e], seg))
      invariant forall k :: e < k < i ==> !ExtendsSegment(t[k], seg)
    {
      if t[i].start > seg.endTime {
        break;
      }
      if ExtendsSegment(t[i], seg) {
        e := i;
      }
      i := i + 1;
    }
    assert i == Cutoff(seg, t, from);
    EndIndexUnique(seg, t, from, e, EndIndex(seg, t, from));
  }

  /** The text of the inclusive word range [s, e], space-joined. */
  function RangeText(t: seq<Word>, s: nat, e: nat): string
    requires s <= e < |t|
  {
    Join(Texts(t[s..e + 1]))
  }

  /** One segment of the map: resolved when a start word exists, otherwise returned as is. */
  function ProcessSegment(seg: Invalid, t: seq<Word>): (r: Invalid)
    ensures r.startTime == seg.startTime && r.endTime == seg.endTime
    ensures r.kind == seg.kind && r.isEntire == seg.isEntire
    ensures StartIndex(seg, t).None? ==> r == seg
    ensures StartIndex(seg, t).Some? ==>
      && r.startIndex == StartIndex(seg, t)
      && r.endIndex.Some?
      && StartIndex(seg, t).value <= r.endIndex.value < |t|
      && IsEndIndex(seg, t, StartIndex(seg, t).value, r.endIndex.value)
      && r.text == Some(RangeText(t, StartIndex(seg, t).value, r.endIndex.value))
  {
    match StartIndex(seg, t)
    case None => seg
    case Some(s) =>
      var e := EndIndex(seg, t, s);
      seg.(startIndex := Some(s), endIndex := Some(e), text := Some(RangeText(t, s, e)))
  }

  /** processInvalidSegments: resolve every segment against the transcript. */
  function ProcessInvalidSegments(segs: seq<Invalid>, t: seq<Word>): (r: seq<Invalid>)
    ensures |segs| == 0 || |t| == 0 ==> r == segs
    ensures |r| == |segs|
    ensures forall k :: 0 <= k < |r| ==> r[k] == ProcessSegment(segs[k], t)
  {
    if |segs| == 0 || |t| == 0 then segs
    else
      seq(|segs|, k requires 0 <= k < |segs| => ProcessSegment(segs[k], t))
  }

  /** The early return agrees with the map: against an empty transcript nothing resolves. */
  lemma EmptyTranscriptUnresolved(segs: seq<Invalid>, t: seq<Word>)
    requires |t| == 0
    ensures forall k :: 0 <= k < |segs| ==> ProcessSegment(segs[k], t) == segs[k]
  {
  }

  /** When resolved, the start word itself passes the end-word test unless the scan stops at once. */
  lemma ResolvedStartExtends(seg: Invalid, t: seq<Word>)
    requires StartIndex(seg, t).Some?
    requires !PastSegment(t[StartIndex(seg, t).value], seg)
    ensures ExtendsSegment(t[StartIndex(seg, t).value], seg)
  {
  }

  /** A three-word mapping example: the interval [0.9, 2.6] over words inside 0..2. */
  const MappingWords: seq<Word> := [Word("a", 0.0, 1.0), Word("b", 1.1, 2.0), Word("c", 2.5, 3.5)]
  const MappingSegment: Invalid := Invalid(0.9, 2.6, Repetition, false, None, None, None)

  /** The interval maps to the words 0..2, with text "a b c". */
  lemma MappingExample()
    ensures ProcessSegment(MappingSegment, MappingWords) ==
      MappingSegment.(startIndex := Some(0), endIndex := Some(2), text := Some("a b c"))
  {
    var t, seg := MappingWords, MappingSegment;
    assert StartsSegment(t[0], seg);
    assert StartIndex(seg, t) == Some(0);
    assert !PastSegment(t[0], seg) && !PastSegment(t[1], seg) && !PastSegment(t[2], seg);
    assert Cutoff(seg, t, 0) == 3;
    assert ExtendsSegment(t[2], seg);
    assert IsEndIndex(seg, t, 0, 2);
    EndIndexUnique(seg, t, 0, 2, EndIndex(seg, t, 0));
    assert t[0..3] == t;
    assert Texts(t) == ["a", "b", "c"];
    assert Join(["c"]) == "c";
    assert Join(["b", "c"]) == "b c" by { assert ["b", "c"][1..] == ["c"]; }
    assert Join(["a", "b", "c"]) == "a b c" by { assert ["a", "b", "c"][1..] == ["b", "c"]; }
  }

  // ---------------------------------------------------------------------
  // Filler-word detector
  // ---------------------------------------------------------------------

  /** The filler tokens of lines 73-74. */
  const FillerTokens: seq<string> :=
    ["um", "uh", "like", "so", "basically", "actually",
     "literally", "right", "okay", "well", "hmm", "er", "ah"]

  function LowerChar(c: char): char
  {
    if 'A' <= c <= 'Z' then (c as int + 32) as char else c
  }

  /** toLowerCase, on the ASCII letters. */
  function Lower(s: string): (r: string)
    ensures |r| == |s|
    ensures forall i :: 0 <= i < |s| ==> r[i] == LowerChar(s[i])
  {
    seq(|s|, i requires 0 <= i < |s| => LowerChar(s[i]))
  }

  /** The white space and line terminators that String.prototype.trim removes. */
  predicate IsTrimmed(c: char)
  {
    c == ' ' || c == '\t' || c == '\n' || c == '\r' || c == '\U{000B}' || c == '\U{000C}' ||
    c == '\U{00A0}' || c == '\U{1680}' || ('\U{2000}' <= c <= '\U{200A}') ||
    c == '\U{2028}' || c == '\U{2029}' || c == '\U{202F}' || c == '\U{205F}' ||
    c == '\U{3000}' || c == '\U{FEFF}'
  }

  function TrimStart(s: string): string
  {
    if |s| > 0 && IsTrimmed(s[0]) then TrimStart(s[1..]) else s
  }

  function TrimEnd(s: string): string
  {
    if |s| > 0 && IsTrimmed(s[|s| - 1]) then TrimEnd(s[..|s| - 1]) else s
  }

  /** String.prototype.trim. */
  function Trim(s: string): string
  {
    TrimEnd(TrimStart(s))
  }

  /** `s` is one of the filler tokens from position i on. */
  predicate IsFillerTokenFrom(s: string, i: nat)
    decreases |FillerTokens| - i
  {
    i < |FillerTokens| && (FillerTokens[i] == s || IsFillerTokenFrom(s, i + 1))
  }

  /** `fillerWords.includes(s)`. */
  predicate IsFillerToken(s: string)
  {
    IsFillerTokenFrom(s, 0)
  }

  /** The lookup is membership in the token list. */
  lemma {:induction false} FillerTokenFrom(s: string, i: nat)
    ensures IsFillerTokenFrom(s, i) <==> exists j :: i <= j < |FillerTokens| && FillerTokens[j] == s
    decreases |FillerTokens| - i
  {
    if i < |FillerTokens| {
      FillerTokenFrom(s, i + 1);
    }
  }

  lemma FillerTokenMembership(s: string)
    ensures IsFillerToken(s) <==> s in FillerTokens
  {
    FillerTokenFrom(s, 0);
  }

  /** A word is a filler when its lowercased, trimmed text is one of the filler tokens. */
  predicate IsFiller(w: Word)
  {
    IsFillerToken(Trim(Lower(w.word)))
  }

  /** The annotation emitted for the filler word `w` at index `i`. */
  function FillerAnnotation(w: Word, i: nat): Invalid
  {
    Invalid(w.start, w.end, FillerWords, false, Some(w.word), Some(i), Some(i))
  }

  /**
   * The annotations for the words among the first n that `isFiller` accepts,
   * in word order. The detector uses it with IsFiller; the lemmas below hold
   * for any word test.
   */
  function FillersUpTo(t: seq<Word>, n: nat, isFiller: Word -> bool): seq<Invalid>
    requires n <= |t|
  {
    if n == 0 then []
    else
      var before := FillersUpTo(t, n - 1, isFiller);
      if isFiller(t[n - 1]) then before + [FillerAnnotation(t[n - 1], n - 1)] else before
  }

  /** Specification of the filler detector. */
  function Fillers(t: seq<Word>): seq<Invalid>
  {
    FillersUpTo(t, |t|, IsFiller)
  }

  /** detectFillerWords: the forEach that pushes one annotation per filler word. */
  method DetectFillerWords(t: seq<Word>) returns (r: seq<Invalid>)
    ensures r == Fillers(t)
  {
    r := [];
    for index := 0 to |t|
      invariant r == FillersUpTo(t, index, IsFiller)
    {
      var wordObj := t[index];
      var wordLower := Trim(Lower(wordObj.word));
      if IsFillerToken(wordLower) {
        r := r + [FillerAnnotation(wordObj, index)];
      }
    }
  }

  /** `a` is the annotation of an accepted word among the first n, at the index it names. */
  predicate IsFillerAnnotationBefore(t: seq<Word>, a: Invalid, n: nat, isFiller: Word -> bool)
  {
    && a.startIndex.Some? && a.startIndex.value < n <= |t|
    && isFiller(t[a.startIndex.value])
    && a == FillerAnnotation(t[a.startIndex.value], a.startIndex.value)
  }

  /** Each filler annotation is the annotation of the filler word it indexes. */
  lemma {:induction false} FillersSound(t: seq<Word>, n: nat, isFiller: Word -> bool)
    requires n <= |t|
    ensures forall k :: 0 <= k < |FillersUpTo(t, n, isFiller)| ==>
      IsFillerAnnotationBefore(t, FillersUpTo(t, n, isFiller)[k], n, isFiller)
  {
    if n > 0 {
      FillersSound(t, n - 1, isFiller);
      var prev, r := FillersUpTo(t, n - 1, isFiller), FillersUpTo(t, n, isFiller);
      assert r == prev || r == prev + [FillerAnnotation(t[n - 1], n - 1)];
      forall k | 0 <= k < |r|
        ensures IsFillerAnnotationBefore(t, r[k], n, isFiller)
      {
        if k < |prev| {
          assert r[k] == prev[k];
        }
      }
    }
  }

  /** Filler annotations come in word order, so no word is annotated twice. */
  lemma {:induction false} FillersOrdered(t: seq<Word>, n: nat, isFiller: Word -> bool)
    requires n <= |t|
    ensures forall k1, k2 :: 0 <= k1 < k2 < |FillersUpTo(t, n, isFiller)| ==>
      && FillersUpTo(t, n, isFiller)[k1].startIndex.Some? && FillersUpTo(t, n, isFiller)[k2].startIndex.Some?
      && FillersUpTo(t, n, isFiller)[k1].startIndex.value < FillersUpTo(t, n, isFiller)[k2].startIndex.value
  {
    if n == 0 {
      assert FillersUpTo(t, n, isFiller) == [];
    } else {
      FillersOrdered(t, n - 1, isFiller);
      FillersSound(t, n - 1, isFiller);
      var prev, r := FillersUpTo(t, n - 1, isFiller), FillersUpTo(t, n, isFiller);
      assert r == prev || r == prev + [FillerAnnotation(t[n - 1], n - 1)];
      forall k1, k2 | 0 <= k1 < k2 < |r|
        ensures r[k1].startIndex.Some? && r[k2].startIndex.Some? && r[k1].startIndex.value < r[k2].startIndex.value
      {
        assert r[k1] == prev[k1];
        assert IsFillerAnnotationBefore(t, prev[k1], n - 1, isFiller);
        if k2 < |prev| {
          assert r[k2] == prev[k2];
        }
      }
    }
  }

  /** Every filler word among the first n carries an annotation. */
  lemma {:induction false} FillersComplete(t: seq<Word>, n: nat, i: nat, isFiller: Word -> bool)
    requires i < n <= |t|
    requires isFiller(t[i])
    ensures exists k :: 0 <= k < |FillersUpTo(t, n, isFiller)| && FillersUpTo(t, n, isFiller)[k].startIndex == Some(i)
  {
    var prev, r := FillersUpTo(t, n - 1, isFiller), FillersUpTo(t, n, isFiller);
    if i < n - 1 {
      FillersComplete(t, n - 1, i, isFiller);
      assert r == prev || r == prev + [FillerAnnotation(t[n - 1], n - 1)];
      var k :| 0 <= k < |prev| && prev[k].startIndex == Some(i);
      assert r[k] == prev[k];
    } else {
      assert r == prev + [FillerAnnotation(t[n - 1], n - 1)];
      assert r[|prev|].startIndex == Some(i);
    }
  }

  /** A transcript without filler words yields no annotations. */
  lemma {:induction false} NoFillersNoAnnotations(t: seq<Word>, n: nat, isFiller: Word -> bool)
    requires n <= |t|
    requires forall i :: 0 <= i < n ==> !isFiller(t[i])
    ensures FillersUpTo(t, n, isFiller) == []
  {
    if n > 0 {
      NoFillersNoAnnotations(t, n - 1, isFiller);
    }
  }

  /** A token of lower-case letters is its own normal form. */
  lemma PlainToken(s: string)
    requires |s| > 0 && forall i :: 0 <= i < |s| ==> 'a' <= s[i] <= 'z'
    ensures Trim(Lower(s)) == s
  {
    assert Lower(s) == s;
    assert TrimStart(s) == s;
  }

  /** Matching is on the whole trimmed, lowercased token. */
  lemma FillerMatchExamples(s: real, e: real)
    ensures IsFiller(Word(" Um", s, e))
    ensures !IsFiller(Word("umbrella", s, e))
  {
    PaddedUm();
    FillerTokenMembership("um");
    PlainToken("umbrella");
    FillerTokenMembership("umbrella");
  }

  lemma PaddedUm()
    ensures Trim(Lower(" Um")) == "um"
  {
    assert Lower(" Um") == " um";
    assert TrimStart(" um") == TrimStart("um") == "um";
    assert TrimEnd("um") == "um";
  }

  // ---------------------------------------------------------------------
  // Long-pause detector
  // ---------------------------------------------------------------------

  /** The default pause threshold of detectLongPauses, in seconds. */
  const DefaultPauseThreshold: real := 1.5

  /** The gap between word i-1 and word i. */
  function Gap(t: seq<Word>, i: nat): real
    requires 1 <= i < |t|
  {
    t[i].start - t[i - 1].end
  }

  /** The annotation for the pause before word i; `pauseText` formats the gap length. */
  function PauseAnnotation(t: seq<Word>, i: nat, pauseText: real -> string): Invalid
    requires 1 <= i < |t|
  {
    Invalid(t[i - 1].end, t[i].start, LongPause, false, Some(pauseText(Gap(t, i))), Some(i - 1), Some(i))
  }

  /** Specification of the pause detector: annotations for the pauses before words 1..n-1. */
  function PausesUpTo(t: seq<Word>, threshold: real, pauseText: real -> string, n: nat): seq<Invalid>
    requires n <= |t|
  {
    if n <= 1 then []
    else
      var before := PausesUpTo(t, threshold, pauseText, n - 1);
      if Gap(t, n - 1) >= threshold then before + [PauseAnnotation(t, n - 1, pauseText)] else before
  }

  function Pauses(t: seq<Word>, threshold: real, pauseText: real -> string): seq<Invalid>
  {
    PausesUpTo(t, threshold, pauseText, |t|)
  }

  /** detectLongPauses: the loop over adjacent pairs that pushes one annotation per long gap. */
  method DetectLongPauses(t: seq<Word>, threshold: real, pauseText: real -> string) returns (r: seq<Invalid>)
    ensures r == Pauses(t, threshold, pauseText)
  {
    r := [];
    var i := 1;
    while i < |t|
      invariant 1 <= i <= |t| || (|t| == 0 && i == 1)
      invariant r == PausesUpTo(t, threshold, pauseText, if |t| == 0 then 0 else i)
    {
      var prevWord := t[i - 1];
      var currentWord := t[i];
      var timeDiff := currentWord.start - prevWord.end;
      if timeDiff >= threshold {
        r := r + [PauseAnnotation(t, i, pauseText)];
      }
      i := i + 1;
    }
  }

  /** `a` is the annotation of a long gap before word i < n, with i its end index. */
  predicate IsPauseAnnotationBefore(t: seq<Word>, threshold: real, pauseText: real -> string, a: Invalid, n: nat)
  {
    && a.endIndex.Some? && 1 <= a.endIndex.value < n <= |t|
    && Gap(t, a.endIndex.value) >= threshold
    && a == PauseAnnotation(t, a.endIndex.value, pauseText)
  }

  /** Each pause annotation spans [words[i-1].end, words[i].start] for a long gap before word i. */
  lemma {:induction false} PausesSound(t: seq<Word>, threshold: real, pauseText: real -> string, n: nat)
    requires n <= |t|
    ensures forall k :: 0 <= k < |PausesUpTo(t, threshold, pauseText, n)| ==>
      IsPauseAnnotationBefore(t, threshold, pauseText, PausesUpTo(t, threshold, pauseText, n)[k], n)
  {
    if n > 1 {
      PausesSound(t, threshold, pauseText, n - 1);
      var prev, r := PausesUpTo(t, threshold, pauseText, n - 1), PausesUpTo(t, threshold, pauseText, n);
      assert r == prev || r == prev + [PauseAnnotation(t, n - 1, pauseText)];
      forall k | 0 <= k < |r|
        ensures IsPauseAnnotationBefore(t, threshold, pauseText, r[k], n)
      {
        if k < |prev| {
          assert r[k] == prev[k];
        }
      }
    }
  }

  /** Pause annotations come in word order. */
  lemma {:induction false} PausesOrdered(t: seq<Word>, threshold: real, pauseText: real -> string, n: nat)
    requires n <= |t|
    ensures forall k1, k2 :: 0 <= k1 < k2 < |PausesUpTo(t, threshold, pauseText, n)| ==>
      && PausesUpTo(t, threshold, pauseText, n)[k1].endIndex.Some?
      && PausesUpTo(t, threshold, pauseText, n)[k2].endIndex.Some?
      && PausesUpTo(t, threshold, pauseText, n)[k1].endIndex.value < PausesUpTo(t, threshold, pauseText, n)[k2].endIndex.value
  {
    if n <= 1 {
      assert PausesUpTo(t, threshold, pauseText, n) == [];
    } else {
      PausesOrdered(t, threshold, pauseText, n - 1);
      PausesSound(t, threshold, pauseText, n - 1);
      var prev, r := PausesUpTo(t, threshold, pauseText, n - 1), PausesUpTo(t, threshold, pauseText, n);
      assert r == prev || r == prev + [PauseAnnotation(t, n - 1, pauseText)];
      forall k1, k2 | 0 <= k1 < k2 < |r|
        ensures r[k1].endIndex.Some? && r[k2].endIndex.Some? && r[k1].endIndex.value < r[k2].endIndex.value
      {
        assert r[k1] == prev[k1];
        assert IsPauseAnnotationBefore(t, threshold, pauseText, prev[k1], n - 1);
        if k2 < |prev| {
          assert r[k2] == prev[k2];
        }
      }
    }
  }

  /** Every gap at or above the threshold among the first n words carries an annotation. */
  lemma {:induction false} PausesComplete(t: seq<Word>, threshold: real, pauseText: real -> string, n: nat, i: nat)
    requires 1 <= i < n <= |t|
    requires Gap(t, i) >= threshold
    ensures exists k ::
      0 <= k < |PausesUpTo(t, threshold, pauseText, n)| && PausesUpTo(t, threshold, pauseText, n)[k].endIndex == Some(i)
  {
    var prev, r := PausesUpTo(t, threshold, pauseText, n - 1), PausesUpTo(t, threshold, pauseText, n);
    if i < n - 1 {
      PausesComplete(t, threshold, pauseText, n - 1, i);
      assert r == prev || r == prev + [PauseAnnotation(t, n - 1, pauseText)];
      var k :| 0 <= k < |prev| && prev[k].endIndex == Some(i);
      assert r[k] == prev[k];
    } else {
      assert r == prev + [PauseAnnotation(t, n - 1, pauseText)];
      assert r[|prev|].endIndex == Some(i);
    }
  }

  /** Two words separated by a 2-second gap. */
  const PauseWords: seq<Word> := [Word("x", 0.0, 1.0), Word("y", 3.0, 4.0)]

  /** A 2-second gap is a pause at threshold 1.5 but not at 2.5. */
  lemma PauseExamples(pauseText: real -> string)
    ensures Pauses(PauseWords, 1.5, pauseText) ==
      [Invalid(1.0, 3.0, LongPause, false, Some(pauseText(2.0)), Some(0), Some(1))]
    ensures Pauses(PauseWords, 2.5, pauseText) == []
  {
    var t := PauseWords;
    assert Gap(t, 1) == 2.0;
    assert PausesUpTo(t, 1.5, pauseText, 1) == [];
    assert PausesUpTo(t, 2.5, pauseText, 1) == [];
    assert PausesUpTo(t, 1.5, pauseText, 2) == [PauseAnnotation(t, 1, pauseText)];
    assert PausesUpTo(t, 2.5, pauseText, 2) == [];
  }

  // ---------------------------------------------------------------------
  // Merge of detected candidates into the existing list
  // ---------------------------------------------------------------------

  /** The closed-interval overlap test of lines 150-152. */
  predicate Overlaps(c: Invalid, e: Invalid)
  {
    (c.startTime >= e.startTime && c.startTime <= e.endTime) ||
    (c.endTime >= e.startTime && c.endTime <= e.endTime) ||
    (c.startTime <= e.startTime && c.endTime >= e.endTime)
  }

  /** `existing.some(...)`: the candidate overlaps some existing segment. */
  predicate OverlapsAny(c: Invalid, existing: seq<Invalid>)
  {
    exists k :: 0 <= k < |existing| && Overlaps(c, existing[k])
  }

  /** The first n candidates that overlap none of the original segments, in order. */
  function AcceptedUpTo(cands: seq<Invalid>, existing: seq<Invalid>, n: nat): seq<Invalid>
    requires n <= |cands|
  {
    if n == 0 then []
    else
      var before := AcceptedUpTo(cands, existing, n - 1);
      if OverlapsAny(cands[n - 1], existing) then before else before + [cands[n - 1]]
  }

  /** Specification of the merge: the existing list followed by the accepted candidates. */
  function Merge(existing: seq<Invalid>, cands: seq<Invalid>): seq<Invalid>
  {
    existing + AcceptedUpTo(cands, existing, |cands|)
  }

  /** processFillerAndLongPauses with the default pause threshold. */
  method ProcessFillerAndLongPauses(t: seq<Word>, existing: seq<Invalid>, pauseText: real -> string)
    returns (r: seq<Invalid>)
    ensures r == Merge(existing, Fillers(t) + Pauses(t, DefaultPauseThreshold, pauseText))
  {
    var fillerSegments := DetectFillerWords(t);
    var pauseSegments := DetectLongPauses(t, DefaultPauseThreshold, pauseText);
    var cands := fillerSegments + pauseSegments;
    r := existing;
    for i := 0 to |cands|
      invariant r == existing + AcceptedUpTo(cands, existing, i)
    {
      var hasOverlap := exists k :: 0 <= k < |existing| && Overlaps(cands[i], existing[k]);
      if !hasOverlap {
        r := r + [cands[i]];
      }
    }
  }

  /** The positions among the first n candidates that overlap none of the original segments, in order. */
  function AcceptedIndices(cands: seq<Invalid>, existing: seq<Invalid>, n: nat): seq<nat>
    requires n <= |cands|
  {
    if n == 0 then []
    else
      var before := AcceptedIndices(cands, existing, n - 1);
      if OverlapsAny(cands[n - 1], existing) then before else before + [n - 1]
  }

  /** The accepted positions are strictly increasing and are exactly the non-overlapping ones. */
  lemma {:induction false} AcceptedIndicesExact(cands: seq<Invalid>, existing: seq<Invalid>, n: nat)
    requires n <= |cands|
    ensures forall j :: 0 <= j < |AcceptedIndices(cands, existing, n)| ==> AcceptedIndices(cands, existing, n)[j] < n
    ensures forall j1, j2 :: 0 <= j1 < j2 < |AcceptedIndices(cands, existing, n)| ==>
      AcceptedIndices(cands, existing, n)[j1] < AcceptedIndices(cands, existing, n)[j2]
    ensures forall i :: 0 <= i < n ==> (i in AcceptedIndices(cands, existing, n) <==> !OverlapsAny(cands[i], existing))
  {
    if n > 0 {
      AcceptedIndicesExact(cands, existing, n - 1);
      var before := AcceptedIndices(cands, existing, n - 1);
      if !OverlapsAny(cands[n - 1], existing) {
        var now := before + [n - 1];
        assert AcceptedIndices(cands, existing, n) == now;
        assert forall j :: 0 <= j < |before| ==> now[j] == before[j];
      }
    }
  }

  /** The accepted candidates are the candidates at the accepted positions, one for one. */
  lemma {:induction false} AcceptedAtIndices(cands: seq<Invalid>, existing: seq<Invalid>, n: nat)
    requires n <= |cands|
    ensures |AcceptedUpTo(cands, existing, n)| == |AcceptedIndices(cands, existing, n)|
    ensures forall j :: 0 <= j < |AcceptedIndices(cands, existing, n)| ==>
      AcceptedIndices(cands, existing, n)[j] < |cands| &&
      AcceptedUpTo(cands, existing, n)[j] == cands[AcceptedIndices(cands, existing, n)[j]]
  {
    if n > 0 {
      AcceptedAtIndices(cands, existing, n - 1);
      AcceptedIndicesExact(cands, existing, n - 1);
      var a, idx := AcceptedUpTo(cands, existing, n - 1), AcceptedIndices(cands, existing, n - 1);
      if !OverlapsAny(cands[n - 1], existing) {
        var a2, idx2 := a + [cands[n - 1]], idx + [n - 1];
        assert AcceptedUpTo(cands, existing, n) == a2 && AcceptedIndices(cands, existing, n) == idx2;
        assert forall j :: 0 <= j < |idx| ==> a2[j] == a[j] && idx2[j] == idx[j];
      }
    }
  }

  /**
   * The merge keeps the existing list as its prefix, and what follows is the
   * subsequence of candidates (in order, each once) that overlap no ORIGINAL
   * segment: the accepted list is the candidates at a strictly increasing
   * sequence of positions, and those positions are exactly the candidates
   * that overlap none of `existing`.
   */
  lemma {:induction false} MergeExact(existing: seq<Invalid>, cands: seq<Invalid>, n: nat)
    requires n <= |cands|
    ensures var a, idx := AcceptedUpTo(cands, existing, n), AcceptedIndices(cands, existing, n);
      && |a| == |idx| <= n
      && (forall j :: 0 <= j < |idx| ==> idx[j] < n && a[j] == cands[idx[j]])
      && (forall j1, j2 :: 0 <= j1 < j2 < |idx| ==> idx[j1] < idx[j2])
      && (forall i :: 0 <= i < n ==> (i in idx <==> !OverlapsAny(cands[i], existing)))
    ensures var a := AcceptedUpTo(cands, existing, n);
      && (forall x :: x in a ==> x in cands[..n] && !OverlapsAny(x, existing))
      && (forall i :: 0 <= i < n && !OverlapsAny(cands[i], existing) ==> cands[i] in a)
  {
    AcceptedIndicesExact(cands, existing, n);
    AcceptedAtIndices(cands, existing, n);
    AcceptedMembers(existing, cands, n);
    var idx := AcceptedIndices(cands, existing, n);
    IncreasingBounded(idx, n);
  }

  /** A strictly increasing sequence of positions below n has at most n entries. */
  lemma {:induction false} IncreasingBounded(idx: seq<nat>, n: nat)
    requires forall j :: 0 <= j < |idx| ==> idx[j] < n
    requires forall j1, j2 :: 0 <= j1 < j2 < |idx| ==> idx[j1] < idx[j2]
    ensures |idx| <= n
  {
    if |idx| > 0 {
      var init := idx[..|idx| - 1];
      assert forall j :: 0 <= j < |init| ==> init[j] < idx[|idx| - 1] < n;
      IncreasingBounded(init, idx[|idx| - 1]);
    }
  }

  /** Value membership: an accepted candidate overlaps nothing original, and every such candidate is accepted. */
  lemma {:induction false} AcceptedMembers(existing: seq<Invalid>, cands: seq<Invalid>, n: nat)
    requires n <= |cands|
    ensures var a := AcceptedUpTo(cands, existing, n);
      && (forall x :: x in a ==> x in cands[..n] && !OverlapsAny(x, existing))
      && (forall i :: 0 <= i < n && !OverlapsAny(cands[i], existing) ==> cands[i] in a)
  {
    if n > 0 {
      AcceptedMembers(existing, cands, n - 1);
      assert cands[..n] == cands[..n - 1] + [cands[n - 1]];
    }
  }

  /** The whole merge: the existing list, then the accepted candidates in their original order. */
  lemma MergeKeepsExisting(existing: seq<Invalid>, cands: seq<Invalid>)
    ensures |Merge(existing, cands)| >= |existing|
    ensures Merge(existing, cands)[..|existing|] == existing
    ensures forall x :: x in Merge(existing, cands)[|existing|..] <==> x in cands && !OverlapsAny(x, existing)
    ensures |Merge(existing, cands)| == |existing| + |AcceptedIndices(cands, existing, |cands|)|
    ensures forall j :: 0 <= j < |AcceptedIndices(cands, existing, |cands|)| ==>
      AcceptedIndices(cands, existing, |cands|)[j] < |cands| &&
      Merge(existing, cands)[|existing| + j] == cands[AcceptedIndices(cands, existing, |cands|)[j]]
  {
    MergeExact(existing, cands, |cands|);
    assert cands[..|cands|] == cands;
    var m := Merge(existing, cands);
    assert m[|existing|..] == AcceptedUpTo(cands, existing, |cands|);
    forall x | x in cands && !OverlapsAny(x, existing)
      ensures x in m[|existing|..]
    {
      var i :| 0 <= i < |cands| && cands[i] == x;
    }
  }

  /** A filler word ending at 2 followed by a word starting at 4. */
  const OverlapWords: seq<Word> := [Word("um", 1.0, 2.0), Word("next", 4.0, 5.0)]

  /**
   * Candidates are not checked against each other: with no existing segments a
   * filler word ending at 2 and the pause starting at 2 are both kept although
   * they overlap under the merge's own closed-interval test.
   */
  lemma CandidatesMayOverlapEachOther(pauseText: real -> string)
    ensures |Merge([], Fillers(OverlapWords) + Pauses(OverlapWords, DefaultPauseThreshold, pauseText))| == 2
    ensures Merge([], Fillers(OverlapWords) + Pauses(OverlapWords, DefaultPauseThreshold, pauseText)) ==
      [FillerAnnotation(OverlapWords[0], 0), PauseAnnotation(OverlapWords, 1, pauseText)]
    ensures Overlaps(PauseAnnotation(OverlapWords, 1, pauseText), FillerAnnotation(OverlapWords[0], 0))
  {
    var t := OverlapWords;
    OverlapFillers();
    OverlapPauses(pauseText);
    var cands := [FillerAnnotation(t[0], 0), PauseAnnotation(t, 1, pauseText)];
    assert Fillers(t) + Pauses(t, DefaultPauseThreshold, pauseText) == cands;
    assert !OverlapsAny(cands[0], []) && !OverlapsAny(cands[1], []);
    assert AcceptedUpTo(cands, [], 0) == [];
    assert AcceptedUpTo(cands, [], 1) == [cands[0]];
    assert AcceptedUpTo(cands, [], 2) == cands;
  }

  /** Only the first of the two words is a filler. */
  lemma OverlapFillers()
    ensures Fillers(OverlapWords) == [FillerAnnotation(OverlapWords[0], 0)]
  {
    var t := OverlapWords;
    OverlapWordKinds();
    assert FillersUpTo(t, 1, IsFiller) == [FillerAnnotation(t[0], 0)];
  }

  lemma OverlapWordKinds()
    ensures IsFiller(OverlapWords[0]) && !IsFiller(OverlapWords[1])
  {
    PlainToken("um");
    FillerTokenMembership("um");
    PlainToken("next");
    FillerTokenMembership("next");
  }

  /** The two-second silence between the words is the only pause. */
  lemma OverlapPauses(pauseText: real -> string)
    ensures Pauses(OverlapWords, DefaultPauseThreshold, pauseText) == [PauseAnnotation(OverlapWords, 1, pauseText)]
  {
    var t := OverlapWords;
    assert Gap(t, 1) == 2.0;
    assert PausesUpTo(t, DefaultPauseThreshold, pauseText, 1) == [];
  }
}
