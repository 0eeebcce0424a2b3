/**
 * src/screens/TestScreen.tsx: the prototype trimming screen. It walks through
 * upload, transcription, analysis, review and export, holds a mock
 * transcript split into segments that the user keeps or drops and may
 * re-word, and follows the playing video to the segment under the play head.
 * The simulated progress timers are replaced by the steps they end in.
 */
module TestScreen {
  import opened Common

  datatype Segment = Segment(id: string, start: real, end: real, text: string, keep: bool, reason: Option<string>)

  datatype TranscriptData = TranscriptData(segments: seq<Segment>, duration: real)

  datatype TrimStep = Upload | Transcribe | Analyze | Review | Export

  /** A selected video file, known here only by its name. */
  datatype VideoFile = VideoFile(name: string)

  /** The map of toggleSegmentKeep: flip `keep` on the segments with this id. */
  function Toggled(segments: seq<Segment>, id: string): (r: seq<Segment>)
    ensures |r| == |segments|
    ensures forall k :: 0 <= k < |segments| && segments[k].id == id ==>
      r[k] == segments[k].(keep := !segments[k].keep)
    ensures forall k :: 0 <= k < |segments| && segments[k].id != id ==> r[k] == segments[k]
  {
    seq(|segments|, k requires 0 <= k < |segments| =>
      if segments[k].id == id then segments[k].(keep := !segments[k].keep) else segments[k])
  }

  /** Toggling the same id twice restores the segments. */
  lemma ToggleTwice(segments: seq<Segment>, id: string)
    ensures Toggled(Toggled(segments, id), id) == segments
  {
    var twice := Toggled(Toggled(segments, id), id);
    assert forall k :: 0 <= k < |segments| ==> twice[k] == segments[k];
  }

  /** The map of updateSegmentText: the segments with this id get the new text. */
  function WithText(segments: seq<Segment>, id: string, text: string): (r: seq<Segment>)
    ensures |r| == |segments|
    ensures forall k :: 0 <= k < |segments| && segments[k].id == id ==> r[k] == segments[k].(text := text)
    ensures forall k :: 0 <= k < |segments| && segments[k].id != id ==> r[k] == segments[k]
  {
    seq(|segments|, k requires 0 <= k < |segments| =>
      if segments[k].id == id then segments[k].(text := text) else segments[k])
  }

  /** Setting a text keeps every segment's id, interval and keep flag, so the kept selection is unchanged. */
  lemma WithTextKeepsSelection(segments: seq<Segment>, id: string, text: string)
    ensures forall k :: 0 <= k < |segments| ==>
      var s := WithText(segments, id, text)[k];
      s.id == segments[k].id && s.start == segments[k].start && s.end == segments[k].end && s.keep == segments[k].keep
    ensures KeptDuration(WithText(segments, id, text)) == KeptDuration(segments)
  {
    SameSpansSameDuration(WithText(segments, id, text), segments);
  }

  /** The segment under the play head: start <= t < end. */
  predicate Plays(s: Segment, t: real)
  {
    t >= s.start && t < s.end
  }

  /** `segments.findIndex(segment => currentTime >= segment.start && currentTime < segment.end)`. */
  function SegmentAt(segments: seq<Segment>, t: real): (r: Option<nat>)
    ensures r.Some? ==> r.value < |segments| && Plays(segments[r.value], t)
    ensures r.Some? ==> forall j :: 0 <= j < r.value ==> !Plays(segments[j], t)
    ensures r.None? ==> forall j :: 0 <= j < |segments| ==> !Plays(segments[j], t)
  {
    FindIndex(segments, (s: Segment) => Plays(s, t))
  }

  /** `segments.filter(segment => segment.keep)`. */
  function Kept(segments: seq<Segment>): (r: seq<Segment>)
    ensures |r| <= |segments|
  {
    if |segments| == 0 then []
    else
      var before := Kept(segments[..|segments| - 1]);
      var last := segments[|segments| - 1];
      if last.keep then before + [last] else before
  }

  /** The kept segments are exactly the segments whose keep flag is set. */
  lemma {:induction false} KeptMembers(segments: seq<Segment>)
    ensures forall s :: s in Kept(segments) <==> s in segments && s.keep
  {
    if |segments| > 0 {
      var init := segments[..|segments| - 1];
      KeptMembers(init);
      assert segments == init + [segments[|segments| - 1]];
    }
  }

  /** `reduce((total, segment) => total + (segment.end - segment.start), 0)`. */
  function TotalLength(segments: seq<Segment>): real
  {
    if |segments| == 0 then 0.0
    else TotalLength(segments[..|segments| - 1]) + (segments[|segments| - 1].end - segments[|segments| - 1].start)
  }

  /** The trimmed length: the summed length of the kept segments. */
  function KeptDuration(segments: seq<Segment>): real
  {
    TotalLength(Kept(segments))
  }

  /** Segments with the same intervals and keep flags have the same kept duration. */
  lemma {:induction false} SameSpansSameDuration(a: seq<Segment>, b: seq<Segment>)
    requires |a| == |b|
    requires forall k :: 0 <= k < |a| ==> a[k].start == b[k].start && a[k].end == b[k].end && a[k].keep == b[k].keep
    ensures KeptDuration(a) == KeptDuration(b)
    ensures |Kept(a)| == |Kept(b)|
  {
    if |a| > 0 {
      SameSpansSameDuration(a[..|a| - 1], b[..|b| - 1]);
    }
  }

  /** With well-formed intervals the trimmed length lies between zero and the total length. */
  lemma {:induction false} KeptWithinTotal(segments: seq<Segment>)
    requires forall k :: 0 <= k < |segments| ==> segments[k].start <= segments[k].end
    ensures 0.0 <= KeptDuration(segments) <= TotalLength(segments)
  {
    if |segments| > 0 {
      var init := segments[..|segments| - 1];
      KeptWithinTotal(init);
    }
  }

  /** The transcript that the simulated transcription ends with. */
  const MockTranscript: TranscriptData := TranscriptData([
    Segment("1", 0.0, 10.0, "Hello everyone, welcome to this presentation about our new product.", true, None),
    Segment("2", 10.0, 20.0, "Umm, so like, we're really excited about this, you know?", false,
      Some("Filler words detected: 'umm', 'like', 'you know'")),
    Segment("3", 20.0, 30.0, "Our product solves a critical problem in the market.", true, None),
    Segment("4", 30.0, 45.0, "...", false, Some("Long pause detected (5 seconds)")),
    Segment("5", 45.0, 60.0, "The main features include real-time analytics and user-friendly interface.", true, None),
    Segment("6", 60.0, 75.0, "We have, uhh, implemented several, mmm, innovative solutions.", false,
      Some("Filler words detected: 'uhh', 'mmm'")),
    Segment("7", 75.0, 90.0, "Our team has worked tirelessly to ensure top quality.", true, None),
    Segment("8", 90.0, 120.0, "Thank you for your attention. Any questions?", true, None)], 120.0)

  lemma TotalLengthAppend(a: seq<Segment>, x: Segment)
    ensures TotalLength(a + [x]) == TotalLength(a) + (x.end - x.start)
  {
    assert (a + [x])[..|a|] == a;
  }

  /** One more segment of the prefix: it is kept or not, and adds its length to the total. */
  lemma PrefixStep(m: seq<Segment>, k: nat)
    requires k < |m|
    ensures |Kept(m[..k + 1])| == |Kept(m[..k])| + (if m[k].keep then 1 else 0)
    ensures TotalLength(m[..k + 1]) == TotalLength(m[..k]) + (m[k].end - m[k].start)
    ensures KeptDuration(m[..k + 1]) == KeptDuration(m[..k]) + (if m[k].keep then m[k].end - m[k].start else 0.0)
  {
    assert m[..k + 1][..k] == m[..k];
    if m[k].keep {
      TotalLengthAppend(Kept(m[..k]), m[k]);
    }
  }

  /** Eight segments with the mock transcript's intervals and keep flags keep 5 of them, 80 of 120 seconds. */
  lemma MockSummaryOf(m: seq<Segment>)
    requires |m| == 8
    requires m[0].start == 0.0 && m[0].end == 10.0 && m[0].keep
    requires m[1].start == 10.0 && m[1].end == 20.0 && !m[1].keep
    requires m[2].start == 20.0 && m[2].end == 30.0 && m[2].keep
    requires m[3].start == 30.0 && m[3].end == 45.0 && !m[3].keep
    requires m[4].start == 45.0 && m[4].end == 60.0 && m[4].keep
    requires m[5].start == 60.0 && m[5].end == 75.0 && !m[5].keep
    requires m[6].start == 75.0 && m[6].end == 90.0 && m[6].keep
    requires m[7].start == 90.0 && m[7].end == 120.0 && m[7].keep
    ensures |Kept(m)| == 5 && KeptDuration(m) == 80.0 && TotalLength(m) == 120.0
  {
    assert m[..0] == [];
    PrefixStep(m, 0);
    PrefixStep(m, 1);
    PrefixStep(m, 2);
    PrefixStep(m, 3);
    PrefixStep(m, 4);
    PrefixStep(m, 5);
    PrefixStep(m, 6);
    PrefixStep(m, 7);
    assert m[..8] == m;
  }

  /** The mock transcript keeps five of its eight segments, 80 of its 120 seconds. */
  lemma MockSummary()
    ensures |Kept(MockTranscript.segments)| == 5 && |MockTranscript.segments| == 8
    ensures KeptDuration(MockTranscript.segments) == 80.0
    ensures TotalLength(MockTranscript.segments) == MockTranscript.duration
  {
    MockSummaryOf(MockTranscript.segments);
  }

  class Screen {
    var currentStep: TrimStep
    var videoFile: Option<VideoFile>
    var transcriptData: Option<TranscriptData>
    var currentSegmentIndex: nat
    var currentTime: real

    constructor ()
      ensures currentStep == Upload && videoFile == None && transcriptData == None
      ensures currentSegmentIndex == 0 && currentTime == 0.0
    {
      currentStep := Upload;
      videoFile := None;
      transcriptData := None;
      currentSegmentIndex := 0;
      currentTime := 0.0;
    }

    /** handleFileUpload: the first chosen file is taken and transcription is next; no file changes nothing. */
    method HandleFileUpload(files: seq<VideoFile>)
      modifies this
      ensures |files| > 0 ==> videoFile == Some(files[0]) && currentStep == Transcribe
      ensures |files| == 0 ==> videoFile == old(videoFile) && currentStep == old(currentStep)
      ensures transcriptData == old(transcriptData)
      ensures currentSegmentIndex == old(currentSegmentIndex) && currentTime == old(currentTime)
    {
      if |files| > 0 {
        videoFile := Some(files[0]);
        currentStep := Transcribe;
      }
    }

    /** The end of the simulated transcription: the mock transcript is loaded and analysis is next. */
    method FinishTranscription()
      modifies this
      ensures transcriptData == Some(MockTranscript) && currentStep == Analyze
      ensures videoFile == old(videoFile)
      ensures currentSegmentIndex == old(currentSegmentIndex) && currentTime == old(currentTime)
    {
      transcriptData := Some(MockTranscript);
      currentStep := Analyze;
    }

    /** The end of the simulated analysis: review is next. */
    method FinishAnalysis()
      modifies this
      ensures currentStep == Review
      ensures videoFile == old(videoFile) && transcriptData == old(transcriptData)
      ensures currentSegmentIndex == old(currentSegmentIndex) && currentTime == old(currentTime)
    {
      currentStep := Review;
    }

    /** The navigation buttons (back to analysis and on to export on the review tab, back to review on the export tab). */
    method GoTo(step: TrimStep)
      requires (currentStep == Review && (step == Analyze || step == Export)) || (currentStep == Export && step == Review)
      modifies this
      ensures currentStep == step
      ensures videoFile == old(videoFile) && transcriptData == old(transcriptData)
      ensures currentSegmentIndex == old(currentSegmentIndex) && currentTime == old(currentTime)
    {
      currentStep := step;
    }

    method ToggleSegmentKeep(id: string)
      modifies this
      ensures old(transcriptData).None? ==> transcriptData == None
      ensures old(transcriptData).Some? ==>
        transcriptData == Some(old(transcriptData).value.(segments := Toggled(old(transcriptData).value.segments, id)))
      ensures currentStep == old(currentStep) && videoFile == old(videoFile)
      ensures currentSegmentIndex == old(currentSegmentIndex) && currentTime == old(currentTime)
    {
      if transcriptData.Some? {
        var data := transcriptData.value;
        transcriptData := Some(data.(segments := Toggled(data.segments, id)));
      }
    }

    method UpdateSegmentText(id: string, newText: string)
      modifies this
      ensures old(transcriptData).None? ==> transcriptData == None
      ensures old(transcriptData).Some? ==>
        transcriptData == Some(old(transcriptData).value.(segments := WithText(old(transcriptData).value.segments, id, newText)))
      ensures currentStep == old(currentStep) && videoFile == old(videoFile)
      ensures currentSegmentIndex == old(currentSegmentIndex) && currentTime == old(currentTime)
    {
      if transcriptData.Some? {
        var data := transcriptData.value;
        transcriptData := Some(data.(segments := WithText(data.segments, id, newText)));
      }
    }

    /** handleTimeUpdate: follow the play head to the first segment under it, if there is one. */
    method HandleTimeUpdate(t: real)
      modifies this
      ensures old(transcriptData).None? ==> currentTime == old(currentTime) && currentSegmentIndex == old(currentSegmentIndex)
      ensures old(transcriptData).Some? ==> currentTime == t
      ensures old(transcriptData).Some? && SegmentAt(old(transcriptData).value.segments, t).Some? ==>
        currentSegmentIndex == SegmentAt(old(transcriptData).value.segments, t).value
      ensures old(transcriptData).Some? && SegmentAt(old(transcriptData).value.segments, t).None? ==>
        currentSegmentIndex == old(currentSegmentIndex)
      ensures currentStep == old(currentStep) && videoFile == old(videoFile) && transcriptData == old(transcriptData)
    {
      if transcriptData.Some? {
        currentTime := t;
        var index := SegmentAt(transcriptData.value.segments, t);
        if index.Some? && index.value != currentSegmentIndex {
          currentSegmentIndex := index.value;
        }
      }
    }
  }
}
