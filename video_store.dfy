/**
 * src/stores/VideoStore.ts: the video editor's store of the loaded video, its
 * plain-text transcript, the analysed segments and the current screen, with
 * a setter per field, an id-keyed segment update and a reset.
 */
module VideoStore {
  import opened Common

  datatype VideoSegment = VideoSegment(
    id: string, start: real, end: real, text: string,
    hasFillerWords: bool, hasPause: bool, isSelected: bool)

  /** `Partial<VideoSegment>`: the fields present overwrite those of the segment. */
  datatype SegmentPatch = SegmentPatch(
    id: Option<string>, start: Option<real>, end: Option<real>, text: Option<string>,
    hasFillerWords: Option<bool>, hasPause: Option<bool>, isSelected: Option<bool>)

  datatype EditorStep = Upload | Transcribe | Analyze | Review | Export

  /** A selected video file, known here only by its name. */
  datatype VideoFile = VideoFile(name: string)

  function Or<T>(o: Option<T>, d: T): T
  {
    if o.Some? then o.value else d
  }

  /** `{ ...segment, ...updates }`. */
  function Patch(s: VideoSegment, u: SegmentPatch): (r: VideoSegment)
    ensures r.id == Or(u.id, s.id) && r.start == Or(u.start, s.start) && r.end == Or(u.end, s.end)
    ensures r.text == Or(u.text, s.text) && r.hasFillerWords == Or(u.hasFillerWords, s.hasFillerWords)
    ensures r.hasPause == Or(u.hasPause, s.hasPause) && r.isSelected == Or(u.isSelected, s.isSelected)
  {
    VideoSegment(
      Or(u.id, s.id), Or(u.start, s.start), Or(u.end, s.end), Or(u.text, s.text),
      Or(u.hasFillerWords, s.hasFillerWords), Or(u.hasPause, s.hasPause), Or(u.isSelected, s.isSelected))
  }

  /** Patching twice with the same updates is patching once. */
  lemma PatchIdempotent(s: VideoSegment, u: SegmentPatch)
    ensures Patch(Patch(s, u), u) == Patch(s, u)
  {
  }

  /** The map of updateSegment: the segments with this id are patched, the others kept. */
  function UpdatedSegments(segments: seq<VideoSegment>, id: string, u: SegmentPatch): (r: seq<VideoSegment>)
    ensures |r| == |segments|
    ensures forall k :: 0 <= k < |segments| && segments[k].id == id ==> r[k] == Patch(segments[k], u)
    ensures forall k :: 0 <= k < |segments| && segments[k].id != id ==> r[k] == segments[k]
  {
    seq(|segments|, k requires 0 <= k < |segments| =>
      if segments[k].id == id then Patch(segments[k], u) else segments[k])
  }

  /** An id no segment has leaves the segments as they are. */
  lemma UpdateAbsentId(segments: seq<VideoSegment>, id: string, u: SegmentPatch)
    requires forall k :: 0 <= k < |segments| ==> segments[k].id != id
    ensures UpdatedSegments(segments, id, u) == segments
  {
  }

  /**
   * Repeating an update changes nothing more: a patched segment either keeps
   * the id, and is patched again to the same value, or has moved to another
   * id and is left alone.
   */
  lemma UpdateIdempotent(segments: seq<VideoSegment>, id: string, u: SegmentPatch)
    ensures UpdatedSegments(UpdatedSegments(segments, id, u), id, u) == UpdatedSegments(segments, id, u)
  {
    var once := UpdatedSegments(segments, id, u);
    forall k | 0 <= k < |segments|
      ensures UpdatedSegments(once, id, u)[k] == once[k]
    {
      if segments[k].id == id {
        PatchIdempotent(segments[k], u);
      }
    }
  }

  class Store {
    var videoFile: Option<VideoFile>
    var videoUrl: Option<string>
    var duration: real
    var transcript: string
    var segments: seq<VideoSegment>
    var currentStep: EditorStep

    /** The state the store is created in and that reset returns to. */
    predicate IsInitial()
      reads this
    {
      videoFile == None && videoUrl == None && duration == 0.0 && transcript == ""
      && segments == [] && currentStep == Upload
    }

    constructor ()
      ensures IsInitial()
    {
      videoFile := None;
      videoUrl := None;
      duration := 0.0;
      transcript := "";
      segments := [];
      currentStep := Upload;
    }

    method SetVideoFile(file: Option<VideoFile>)
      modifies this
      ensures videoFile == file
      ensures videoUrl == old(videoUrl) && duration == old(duration) && transcript == old(transcript)
      ensures segments == old(segments) && currentStep == old(currentStep)
    {
      videoFile := file;
    }

    method SetVideoUrl(url: Option<string>)
      modifies this
      ensures videoUrl == url
      ensures videoFile == old(videoFile) && duration == old(duration) && transcript == old(transcript)
      ensures segments == old(segments) && currentStep == old(currentStep)
    {
      videoUrl := url;
    }

    method SetDuration(d: real)
      modifies this
      ensures duration == d
      ensures videoFile == old(videoFile) && videoUrl == old(videoUrl) && transcript == old(transcript)
      ensures segments == old(segments) && currentStep == old(currentStep)
    {
      duration := d;
    }

    method SetTranscript(text: string)
      modifies this
      ensures transcript == text
      ensures videoFile == old(videoFile) && videoUrl == old(videoUrl) && duration == old(duration)
      ensures segments == old(segments) && currentStep == old(currentStep)
    {
      transcript := text;
    }

    method SetSegments(s: seq<VideoSegment>)
      modifies this
      ensures segments == s
      ensures videoFile == old(videoFile) && videoUrl == old(videoUrl) && duration == old(duration)
      ensures transcript == old(transcript) && currentStep == old(currentStep)
    {
      segments := s;
    }

    /** updateSegment: patch the segments with this id; nothing else changes. */
    method UpdateSegment(id: string, u: SegmentPatch)
      modifies this
      ensures segments == UpdatedSegments(old(segments), id, u)
      ensures videoFile == old(videoFile) && videoUrl == old(videoUrl) && duration == old(duration)
      ensures transcript == old(transcript) && currentStep == old(currentStep)
    {
      segments := UpdatedSegments(segments, id, u);
    }

    method SetCurrentStep(step: EditorStep)
      modifies this
      ensures currentStep == step
      ensures videoFile == old(videoFile) && videoUrl == old(videoUrl) && duration == old(duration)
      ensures transcript == old(transcript) && segments == old(segments)
    {
      currentStep := step;
    }

    /** reset: back to the initial state. */
    method Reset()
      modifies this
      ensures IsInitial()
    {
      videoFile := None;
      videoUrl := None;
      duration := 0.0;
      transcript := "";
      segments := [];
      currentStep := Upload;
    }
  }
}
