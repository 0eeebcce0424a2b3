/**
 * src/components/video/SegmentReviewComponent.tsx: the text shown for an
 * invalid segment under review, made of the transcript words that lie
 * entirely inside the segment's time interval.
 */
module SegmentReview {
  import opened Common

  const NoTranscript: string := "No transcript available"
  const NoText: string := "No text in this segment"

  /** The review's own membership test: closed containment of the word in [start, end]. */
  predicate Contained(w: Word, start: real, end: real)
  {
    w.start >= start && w.end <= end
  }

  /** `transcript.filter(...)`: the contained words, in transcript order. */
  function ContainedWords(t: seq<Word>, start: real, end: real): (r: seq<Word>)
    ensures |r| <= |t|
    ensures forall w :: w in r <==> w in t && Contained(w, start, end)
  {
    if |t| == 0 then []
    else if Contained(t[0], start, end) then [t[0]] + ContainedWords(t[1..], start, end)
    else ContainedWords(t[1..], start, end)
  }

  /** Filtering distributes over concatenation, so the selected words keep their transcript order. */
  lemma {:induction false} ContainedWordsAppend(a: seq<Word>, b: seq<Word>, start: real, end: real)
    ensures ContainedWords(a + b, start, end) == ContainedWords(a, start, end) + ContainedWords(b, start, end)
  {
    if |a| > 0 {
      assert (a + b)[1..] == a[1..] + b;
      ContainedWordsAppend(a[1..], b, start, end);
    } else {
      assert a + b == b;
    }
  }

  /** A word that is not contained contributes nothing; a contained one contributes itself. */
  lemma SingleWord(w: Word, start: real, end: real)
    ensures ContainedWords([w], start, end) == if Contained(w, start, end) then [w] else []
  {
    assert [w][1..] == [];
  }

  /** getTranscriptTextForSegment. */
  function TranscriptTextForSegment(t: seq<Word>, startTime: real, endTime: real): (r: string)
    ensures |t| == 0 ==> r == NoTranscript
    ensures |t| > 0 && (forall i :: 0 <= i < |t| ==> !Contained(t[i], startTime, endTime)) ==> r == NoText
    ensures (exists i :: 0 <= i < |t| && Contained(t[i], startTime, endTime)) ==>
      r == Join(Texts(ContainedWords(t, startTime, endTime)))
  {
    if |t| == 0 then NoTranscript
    else
      var words := ContainedWords(t, startTime, endTime);
      if |words| > 0 then
        assert words[0] in t;
        Join(Texts(words))
      else NoText
  }

  const ReviewWords: seq<Word> := [Word("so", 0.0, 1.0), Word("we", 1.0, 2.0), Word("start", 1.5, 3.0)]

  /** The word ending after the segment is left out, even though it starts inside it. */
  lemma ReviewExample()
    ensures TranscriptTextForSegment(ReviewWords, 0.0, 2.0) == "so we"
    ensures TranscriptTextForSegment(ReviewWords, 3.5, 4.0) == NoText
    ensures TranscriptTextForSegment([], 0.0, 2.0) == NoTranscript
  {
    assert ReviewWords[1..][1..][1..] == [];
    assert ContainedWords(ReviewWords[1..][1..], 0.0, 2.0) == [];
    assert ContainedWords(ReviewWords, 0.0, 2.0) == [ReviewWords[0], ReviewWords[1]];
    assert Texts([ReviewWords[0], ReviewWords[1]]) == ["so", "we"];
    assert ContainedWords(ReviewWords, 3.5, 4.0) == [];
  }
}
