/**
 * How the four membership tests of the code relate. They are kept apart in
 * the model, as in the code: the mapper's start-word and end-word tests
 * (src/utils/processInvalidSegments.ts), the editor's word-in-segment test
 * (src/components/video/TranscriptEditorComponent.tsx) and the review's
 * closed containment (src/components/video/SegmentReviewComponent.tsx).
 */
module Membership {
  import opened Common
  import ProcessInvalidSegments
  import TranscriptEditor
  import SegmentReview

  /** A word the mapper may start a segment at is always a word the editor marks. */
  lemma StartImpliesMarked(w: Word, seg: Invalid)
    ensures ProcessInvalidSegments.StartsSegment(w, seg) ==> TranscriptEditor.InSegment(w, seg)
  {
  }

  /** A well-formed word contained in the interval is marked by the editor. */
  lemma ContainedImpliesMarked(w: Word, seg: Invalid)
    requires w.start <= w.end
    ensures SegmentReview.Contained(w, seg.startTime, seg.endTime) ==> TranscriptEditor.InSegment(w, seg)
  {
  }

  /** For a well-formed word and a non-empty interval, an editor-marked word passes the mapper's end-word test. */
  lemma MarkedImpliesExtends(w: Word, seg: Invalid)
    requires w.start <= w.end && seg.startTime < seg.endTime
    ensures TranscriptEditor.InSegment(w, seg) ==> ProcessInvalidSegments.ExtendsSegment(w, seg)
  {
  }

  /**
   * For a word of positive length and a non-empty interval, the editor's test
   * implies the mapper's start-word test: the two differ only on zero-length
   * words at the interval's end.
   */
  lemma MarkedImpliesStarts(w: Word, seg: Invalid)
    requires w.start < w.end && seg.startTime < seg.endTime
    ensures TranscriptEditor.InSegment(w, seg) ==> ProcessInvalidSegments.StartsSegment(w, seg)
  {
  }

  const Late: Word := Word("late", 3.0, 4.0)
  const Early: Word := Word("early", 0.0, 2.0)
  const AtEnd: Word := Word("at-end", 3.0, 3.0)
  const Interval: Invalid := Invalid(1.0, 3.0, Repetition, false, None, None, None)

  /**
   * None of the three converses hold in general: the end-word test admits a
   * word the editor does not mark, the editor marks a word not contained in
   * the interval, and the editor marks a zero-length word at the interval's
   * end that the start-word test refuses. The end-word test is also strictly
   * wider than the start-word test.
   */
  lemma TestsDiffer()
    ensures ProcessInvalidSegments.ExtendsSegment(Late, Interval) && !TranscriptEditor.InSegment(Late, Interval)
    ensures TranscriptEditor.InSegment(Early, Interval) && !SegmentReview.Contained(Early, Interval.startTime, Interval.endTime)
    ensures TranscriptEditor.InSegment(AtEnd, Interval) && !ProcessInvalidSegments.StartsSegment(AtEnd, Interval)
    ensures ProcessInvalidSegments.ExtendsSegment(Late, Interval) && !ProcessInvalidSegments.StartsSegment(Late, Interval)
  {
  }
}
